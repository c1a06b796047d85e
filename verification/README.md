# Durable indexing, and the indexes it keeps in step

A Dafny model, with proofs, of the part of the code-knowledge backend that spends money and keeps
derived state: the durable indexing workflow, the summary pyramid, the incremental reindexer with the
search index and graph store it updates, the graph queries and the estate partition, and the interval
and budget arithmetic around them. `dafny verify dfyconfig.toml` checks all of it.

How the pieces fit:

- **Durable spend loop.** `Quota`, `Driver` and `Workflow` hold the classes (pool, router, tier-1 driver,
  workflow state, workflow store, workflow) and the specification functions `SummarisedAll`, `RunTranche`
  and `Drive` their methods are proved against. `CrashMachine` is the same loop cut into single effects
  (charge, parse, store, dead-letter, ledger write, checkpoint), with a crash possible between any two.
  `WorkflowIsARun` shows that `Drive` is one uninterrupted execution of that machine, so what
  `CrashSafety`, `ServiceAtomicity`, `ExactSpend` and `TrancheBudget` prove of all executions holds of the
  workflow, crashed and resumed any number of times.
  `OverrunBound` states exactly how much room a service needs for overruns, `UnitBound` the same of the tiers
  above. `TieredMachine` is the machine of the production activity, in which the module and service units of a
  service are called between its last file and its checkpoint; `TieredDrive` shows that the workflow with that
  activity is an uninterrupted run of it, and what every run of it spends.
- **Summary pyramid.** `Tiers`, `Pyramid`, `PyramidRun`, `PyramidCascade`, `EditCascade`, `NextRun` and
  `ServiceActivity`: file, module and service summaries keyed by hashes of child hashes; re-running is free, and a
  change climbs exactly as far as the hashes differ. `StoredTexts` says whose text is stored, `SummarySync`
  shows that indexing runs keep ledger and summaries in step, `CarriedSummaries` when a reindex does.
- **Incremental reindex.** `SearchIndex` and `RankFusion` (documents, document frequencies, lengths, fused
  search), `GraphStore` (mirrored adjacency, nodes listed by kind), `IndexEntries` (what one file contributes),
  `IndexContents` (what an index holds that reflects a tree, said of its chunks), `DiffEffect` (what a diff does to
  tree, ledger and report), `IncrementalRebuild` (when that equals a rebuild), `Reindex` (the reindexer and the
  rebuild over the live stores), `Reconcile` (the orphan sweep), `ChunkIds` and `LedgerHashes`. The reindexer
  carries a ghost tree, the content the index reflects; `Valid()` says that search index and graph agree with it
  path by path. Of the ledger nothing is assumed: what it does to the outcome is part of what is proved.
- **Graph queries and partition.** `BreadthFirst`, `StructuralQueries`, `FlowPaths`, `GraphCollection`,
  `EstatePartition`, `EstateLoad`, `FinaliserPlace`.
- **Intervals, budgets, review.** `BinPacking`, `RateLimit`, `Residue`, `Definitions`, `Chunker`,
  `FlowReview`, `FlowLifecycle`.

What the program takes from outside is a parameter: the gateway (`Gateway`, a reply for each prompt and
number of calls so far), hashing, tokenising and scoring, per-file chunking in the reindexer, syntax trees
in the chunker, narrative writing, the day and the clock. Dates are day numbers; amounts, scores and
instants are reals or integers.

Some promises in the repository's prose do not hold of its code. The code is modelled as it is, and the
condition under which the promise holds is proved:

- "Incremental equals rebuild" holds exactly for inputs that are `Complete`, a condition on index, ledger, diff and
  disk before the call: a path the diff leaves dropped is gone, a path it leaves untouched gives the index what
  it gave before, and so does a path that is never read because its ledger row has the hash of the file on
  disk. Apart from diffs that leave out a change, three kinds of input fail it: two files that swap names
  (`SwapRenameLosesFile`); a copy line, which `backend/freshness/diff.py` turns into a rename
  (`CopyDropsItsSource`); and an edit to a summarised file that leaves just the text of its joined chunks, because
  tier 1 writes the hash of that text into the ledger row which the reindexer compares with the hash of the raw
  file (`TierOneRowHidesEdit`; the file "\n\nx = 1\n" edited to "x = 1" is `LosingPaddingIsNotSeen`). With
  a ledger in step with the index the third kind cannot occur (`LedgerInStepIsSafe`), and the reindexer keeps it in
  step (`LedgerStaysInStep`).
- "One service atomically": nothing of a service is held, whatever the gateway answers within an overrun of o for
  each call, exactly when in order of the files each due one fits the room left by the estimates and overruns of
  the calls before it (`NothingHeldIffFits`; an oversized file asks for room and takes none). Without oversized
  files that is the sum of the due estimates and one overrun for each call but the last
  (`NothingHeldIffOverrunsFit`). Where it does not hold, an approved service can be checkpointed as completed with
  a file held for good (`OverrunLeavesServiceHalfIndexed`). A gateway that reports exhausted quota after the
  approval holds a file with any room (`ExhaustedQuotaHolds`).
- "The higher tiers' own governor checks pass" holds when the calls of all three tiers fit what was available at the
  approval (`FullReserveHoldsNoUnit`). The worker asks for an estimate of that; the default of the workflow is the cost
  of tier 1, and with just that available the first module is held (`DefaultReserveHoldsModule`). When a tier begins
  the condition is exact (`NoUnitHeldIffFits`).
- Chunk ids tell which file they belong to exactly when no two owned files have service and path that run together
  to one text (`IdsTellFilesIffApart`), in particular when no service name holds a colon (`ChunkerIdsAreLawful`).
  File `c` of service `a:b` and file `b:c` of service `a` share an id, and of two chunks alike the index keeps the
  later (`TwoFilesOneDocument`).
- A renamed file whose content is unchanged counts as summarised under its new path, but its summary stays stored under
  the old one, and a run passes it over (`CarriedRenameLosesSummary`). A diff keeps every summarised
  row with its summary exactly when each row it carries finds one under its new path (`DiffKeepsBackingIff`); indexing
  runs always do (`EveryRunKeepsSync`).
- A deleted file's summary stays stored, so its module and service are not summarised again for its loss
  (`LostFilesAreNotSeen`); what a clean run calls is stated for any list of files (`NextCleanRun`).
- "The sweep eventually converges the index back to the tree": it removes exactly the orphans, so the index is a rebuilt
  one exactly when no added or edited file was missed (`SweepEqualsRebuildIff`). The ledger row of an orphan without
  chunks stays (`BlankOrphanKeepsRow`).
- A module is re-summarised when the multiset of its files' hashes changes, so two files that exchange
  their contents leave it as it was (`SwappedContentsLeaveModuleUpToDate`).

The finalizer has its place last because edges between services need both ends: put anywhere else in the run, the
result is the bulk load exactly when each such edge finds its ends all the same, or is there already
(`FinaliserLosesNothingIff`, with `FinalisingFirstLosesEdges` for the run that begins with it).

## Model

| member | source | states |
|---|---|---|
| GraphStore.DetachRemovesExactlyTouching | backend/graph/store.py:107-131 | deleting a node removes every relationship touching it, self-loops included, and no other |
| GraphStore.DetachKeepsMirror | backend/graph/store.py:107-131 | the two adjacency tables still mirror each other after a deletion, with no empty and no repeating list |
| GraphStore.DetachKeepsClosed | backend/graph/store.py:107-131 | a graph whose relationships all have both endpoints keeps that property |
| GraphStore.DropLists | backend/graph/store.py:117-131 | one direction of the in-place deletion: the node's own lists go and it is pruned from every list they point at |
| GraphStore.PruneAll | backend/graph/store.py:151-159 | pruning a list of neighbours removes the node from exactly those lists and drops the ones left empty |
| GraphStore.DetachTables | backend/graph/store.py:117-131 | the pruning loops over both tables together remove every trace of the node |
| GraphStore.InMemoryGraphStore.AddNode | backend/graph/store.py:59-63 | a new node is listed last under its kind, unchanged; of a known key the copy listed first stays listed; adjacency is untouched |
| GraphStore.InMemoryGraphStore.AddEdge | backend/graph/store.py:65-73 | exactly one relationship is added, mirrored, never repeated; the store stays valid |
| GraphStore.InMemoryGraphStore.UpsertNodes | backend/graph/store.py:75-79 | a batch leaves the last node given for each key in the dictionary, and lists by kind the first |
| GraphStore.InMemoryGraphStore.UpsertEdges | backend/graph/store.py:81-85 | a batch adds exactly its relationships |
| GraphStore.InMemoryGraphStore.DeleteNode | backend/graph/store.py:107-131 | the node, its listed copy and exactly the relationships touching it go; every other listed node stays as it was; an unknown node changes nothing |
| GraphStore.InMemoryGraphStore.DeleteFunctions | backend/graph/store.py:133-144 | the functions keyed under the path go, from the listing too, with exactly their relationships, and are counted |
| GraphStore.InMemoryGraphStore.DeleteFile | backend/graph/store.py:133-144 | the file node and its functions go, from the listing too, with exactly the relationships touching any of them; other listed nodes are unchanged; the count is exact |
| SearchIndex.CountsIsFrequencyTable | backend/retrieval/inmemory.py:44-57 | counts that agree with the documents term by term, positive where present, are the frequency table of the set of documents |
| SearchIndex.SumLengthsSplit | backend/retrieval/inmemory.py:143-149 | the total length of a set of documents splits into one document and the rest, in whatever order the total was built |
| SearchIndex.CountUp | backend/retrieval/inmemory.py:54-57 | adding a document raises the count of exactly its terms by one |
| SearchIndex.CountDown | backend/retrieval/inmemory.py:143-149 | removing a document lowers exactly its terms and drops keys that reach zero |
| SearchIndex.InMemorySearchBackend.Index | backend/retrieval/inmemory.py:44-57 | the documents become the given chunks over the old ones (same id overwritten); document frequencies and total length stay exact |
| SearchIndex.InMemorySearchBackend.Add | backend/retrieval/inmemory.py:44-57 | one chunk, replacing an older one of its id, with the statistics exact |
| SearchIndex.InMemorySearchBackend.Remove | backend/retrieval/inmemory.py:143-149 | removing a document keeps the statistics exact |
| SearchIndex.InMemorySearchBackend.DeleteByFile | backend/retrieval/inmemory.py:122-131 | exactly the documents of the file go, counted |
| SearchIndex.InMemorySearchBackend.DeleteService | backend/retrieval/inmemory.py:133-137 | exactly the documents of the service go, counted |
| SearchIndex.InMemorySearchBackend.IndexedFiles | backend/retrieval/inmemory.py:139-141 | exactly the files with a stored document |
| SearchIndex.InMemorySearchBackend.HybridSearch | backend/retrieval/inmemory.py:59-99 | min(k, number found) hits, none for k not positive; the i-th shows the i-th id of the complete fused order, with its stored chunk and its fused, lexical and dense score |
| SearchIndex.InMemorySearchBackend.CompleteAnswer | backend/retrieval/inmemory.py:67-98 | the scores, rankings and sort over the running statistics give the complete answer defined from the documents |
| SearchIndex.AnswerIsDetermined | backend/retrieval/inmemory.py:59-99 | two backends that store the same documents give the same complete answer, whatever history built them |
| SearchIndex.BestIsDetermined | backend/retrieval/inmemory.py:99 | and so the same hits |
| SearchIndex.AnswerStaysInScope | backend/retrieval/inmemory.py:67-69 | every hit is a stored document of a service in scope |
| SearchIndex.MatchesAreAnswered | backend/retrieval/inmemory.py:67-90 | every document in scope with a positive lexical or dense score is in the complete order |
| SearchIndex.OthersComeAfter | backend/retrieval/inmemory.py:97-99 | everything found and not shown comes after every hit, and each hit before the next |
| SearchIndex.HitsDescend | backend/retrieval/inmemory.py:97-98 | along the hits the fused score falls, at equal scores the lexical one, then the ids ascend |
| SearchIndex.LexicalIsAgainstMean | backend/retrieval/inmemory.py:103-110 | the lexical score of a document is taken against the mean length, and is zero for an empty query or document |
| SearchIndex.DenseNeedsBoth | backend/retrieval/inmemory.py:75-80 | similarity counts only where query and document have an embedding |
| SearchIndex.SearchableTextHoldsAll | backend/retrieval/inmemory.py:152-156 | a chunk's content, each of its identifiers and its symbol are in the text it is found by |
| SearchIndex.DocumentOfChunk | backend/retrieval/inmemory.py:44-53 | a document counts the tokens of that text, and computes an embedding only for a chunk without one |
| Ordering.StringLeqIsLexicographic | backend/retrieval/inmemory.py:159-164 | one string comes no later than another exactly when it is a prefix or has the smaller character where they first differ |
| RankFusion.RankedIds | backend/retrieval/inmemory.py:159-164 | exactly the ids with a positive score, once each, best first, ties by id |
| RankFusion.PlaceIsRank | backend/retrieval/inmemory.py:159-164 | an id's position is the number of ids that outrank it |
| RankFusion.BestComesFirst | backend/retrieval/inmemory.py:159-164 | one id precedes another exactly when its score is higher, or equal with the smaller id |
| RankFusion.ShareOfPlace | backend/retrieval/inmemory.py:171-173 | the i-th of a ranking, from 0, gets 1 / (61 + i) |
| RankFusion.Accumulate | backend/retrieval/inmemory.py:171-173 | one ranking adds 1/(60 + rank) to each id it holds and nothing to others |
| RankFusion.Fuse | backend/retrieval/inmemory.py:167-176 | the fused ids are those some ranking holds, each with the sum of its shares |
| RankFusion.DominanceRaisesScore | backend/retrieval/inmemory.py:167-176 | an id ahead of another in every ranking that holds the other has the larger fused score |
| RankFusion.PlacementIsFusedOrder | backend/retrieval/inmemory.py:86-99 | sorting the hits gives every found id once in the total result order |
| RankFusion.FusedOrderUnique | backend/retrieval/inmemory.py:97-98 | the result order leaves no freedom: there is one answer |
| RankFusion.DominanceOrdersAnswer | backend/retrieval/inmemory.py:97-98 | an id ahead in every ranking that holds the other precedes it in the final hits |
| Text.ParentOfJoined | backend/ingestion/pipeline.py:278-285 | the parent of `folder/name` is the folder, of `/name` the root, and a name alone has none |
| Text.PathShapes | backend/ingestion/pipeline.py:278-285 | every path has no slash or is a folder, a slash and a name without one |
| Text.DecimalStandsFor | backend/ingestion/pipeline.py:240 | a line number is written in digits, without leading zeros, that stand for it |
| IndexEntries.OfFileIffPath | backend/graph/store.py:133-144 | with no `#` in paths, the prefix test finds exactly the functions of the file and never those of another |
| IndexEntries.IngestBelongs | backend/ingestion/pipeline.py:187-265 | everything one owned file contributes belongs to that file |
| IndexEntries.FillReflects | backend/freshness/reindex.py:78-109 | adding a file's contribution where the path was empty makes the indexes reflect the tree with that content |
| IndexEntries.EraseReflects | backend/freshness/reindex.py:111-119 | removing the file's documents and nodes makes the indexes reflect the tree without it |
| IndexEntries.NothingAtUnowned | backend/freshness/reindex.py:57-66 | paths no service owns have no entries |
| IndexEntries.SameIndexIffAlike | backend/freshness/reindex.py:138-160 | two indexes hold the same chunks, listed file and function nodes, DEFINES edges and edges that place files in modules exactly when the trees they reflect put the same in at every path |
| IndexContents.ReflectingCatalogues | backend/ingestion/pipeline.py:187-265 | an index that reflects a tree has, for every named function or method chunk of its files, the function node `path#symbol@start` of that file and symbol and the DEFINES edge from the file, and no other of either; the file nodes of exactly its files with service, module and language; service and module nodes with the CONTAINS edges down to each file, and no other module holding one; and the documents of exactly its chunks |
| IndexContents.FunctionsAreListed | backend/ingestion/pipeline.py:237-255 | a function node is in the graph if and only if some named function chunk of an indexed file has that key |
| DiffEffect.AppliedAllAt | backend/freshness/reindex.py:138-153 | what a diff leaves at a path is decided by what it does last to that path and by whether it ever reads the file |
| DiffEffect.OtherRowsStay | backend/freshness/reindex.py:57-127 | ledger rows of untouched files, and rows under a service that does not own the path, stay as they were |
| DiffEffect.LedgerStaysInStep | backend/freshness/reindex.py:97-127 | a ledger with exactly one row for each indexed file, at its hash, stays so through any diff |
| DiffEffect.DiffAccounts | backend/freshness/reindex.py:57-127 | every service whose indexed content changed is reported, every row that became pending is queued, and only owners of touched paths are reported |
| DiffEffect.CarriedIffSummarisedAlike | backend/freshness/reindex.py:92-109 | a row is carried exactly when it is of a finished summary of the content on disk; any other re-ingested file is pending at its hash |
| DiffEffect.SkippedIffKnown | backend/freshness/reindex.py:68-76 | a file is passed over exactly when its row has the hash on disk and the index has a chunk of it |
| DiffEffect.ReportOfUpsert | backend/freshness/reindex.py:57-109 | what each outcome of an upsert adds to the report, and that it adds nothing else |
| IncrementalRebuild.IncrementalEqualsRebuild | backend/freshness/reindex.py:138-160 | for any ledger and any diff, in any order and with any repeats, the updated index equals a rebuilt one if and only if index, ledger, diff and disk are `Complete` |
| IncrementalRebuild.LedgerInStepIsSafe | backend/freshness/reindex.py:68-76 | with a ledger in step and a hash without collisions, the condition is only that the diff names every change |
| IncrementalRebuild.StaleRowHidesChange | backend/freshness/reindex.py:68-76 | a row with the hash of the new content, over an index made from another, hides a change the diff names |
| IncrementalRebuild.SwapRenameLosesFile | backend/freshness/reindex.py:121-127 | two renames that swap files lose one of them from the index |
| IncrementalRebuild.CopyDropsItsSource | backend/freshness/diff.py:55-58 | a copy line removes its source from the index though it is still on disk |
| LedgerHashes.TierOneRowHidesEdit | backend/orchestration/work.py:85-92 | a row written by tier 1 hides an edit that leaves the joined text of the file's chunks, and is out of step with the index already |
| LedgerHashes.PaddingIsTrimmed | backend/ingestion/chunker.py:266-281 | the chunker cuts the padded file of the example to line 3 and the bare one to line 1 |
| LedgerHashes.LosingPaddingIsNotSeen | backend/freshness/reindex.py:68-76 | the failing input: the index keeps the chunk at line 3 |
| ChunkIds.IdNamesItsFile | backend/ingestion/chunker.py:331-333 | a chunk id gives back service and path when the service holds no colon, whatever the path holds |
| ChunkIds.SameIdSameRows | backend/ingestion/chunker.py:331-333 | chunks of one id have the same rows, texts of one digest, and files that run together alike |
| ChunkIds.IdsTellFilesIffApart | backend/ingestion/chunker.py:331-333 | chunk ids identify the files of an estate if and only if no two owned files have service and path run together alike, for digests without colons and a chunker that cuts such twins a chunk alike for some contents |
| ChunkIds.ChunkerIdsAreLawful | backend/ingestion/chunker.py:331-333 | in particular they do when no owning service's name holds a colon, and are read back from the id |
| ChunkIds.TwoFilesOneDocument | backend/ingestion/chunker.py:331-333 | the failing input: `a:b` with `c` and `a` with `b:c` give chunks alike one id, and indexing both leaves one document |
| ChunkIds.CollidingNamesBreakTheLaw | backend/ingestion/chunker.py:331-333 | an estate that owns those two files has ids that no reading tells apart |
| Reindex.Reindexer.DeleteFile | backend/freshness/reindex.py:111-119 | tree, ledger and report are those of `AfterDelete`: the path leaves the index, its row leaves the ledger, every other row and file stays |
| Reindex.Reindexer.RefreshFile | backend/freshness/reindex.py:68-84 | a file whose row has the hash of what is on disk and which is indexed is skipped with every store as it was; any other is re-ingested; tree, whole ledger and report are stated |
| Reindex.Reindexer.ReingestFile | backend/freshness/reindex.py:78-109 | old entries are replaced by the new ones, the one ledger row is pending or carried forward, every other row stays |
| Reindex.Reindexer.UpsertFile | backend/freshness/reindex.py:57-109 | an unowned path is ignored with the ledger as it was, a vanished one deleted, any other refreshed from disk |
| Reindex.Reindexer.RenameFile | backend/freshness/reindex.py:121-127 | delete then upsert, with the row the old path had; tree, whole ledger and report are stated |
| Reindex.Reindexer.Apply | backend/freshness/reindex.py:138-153 | the index reflects the tree that `AppliedAll` says, and so catalogues it (`IndexContents.Catalogues`); the whole ledger and the report are what it says |
| Reindex.IngestTree | backend/ingestion/pipeline.py:134-171 | collecting the services and every owned file, in any order, keeping the first of each key, reflects and catalogues exactly the owned tree, and names every service |
| Reindex.CollectedIsShown | backend/ingestion/pipeline.py:65-74 | keeping the first node of each key while collecting is what adding the nodes one by one lists |
| Reindex.Rebuild | backend/ingestion/pipeline.py:134-171 | the collected tree, loaded into an empty search index and an empty graph, reflects and catalogues exactly the owned tree, and names every service |
| Reindex.LiveCatalogues | backend/freshness/reindex.py:78-119 | whatever was rebuilt, re-ingested or deleted, a live index catalogues the tree it reflects |
| Reindex.DefinesAreServed | backend/ingestion/pipeline.py:256-264 | the live graph gives as defined by a file exactly the named functions of its indexed chunks |
| Reindex.FunctionsAreServed | backend/ingestion/pipeline.py:237-255 | and lists exactly those functions |
| Reindex.UpdatedEqualsRebuilt | backend/freshness/reindex.py:138-160 | a live index after a diff equals a live rebuilt one exactly when the input was complete |
| Reindex.SameTreeSameState | backend/freshness/reindex.py:138-160 | two reindexers that reflect the same tree hold equal chunks, listed nodes, edges, document frequencies and total length, and with ledgers in step the same rows with the same hashes |
| Reconcile.SweepChunked | backend/freshness/reconcile.py:41-47 | the first loop: documents, nodes and row of exactly the documented files gone from disk go |
| Reconcile.SweepNodes | backend/freshness/reconcile.py:49-54 | the second loop: the nodes of the other indexed files gone from disk go, the ledger untouched |
| Reconcile.ReconcileIndex | backend/freshness/reconcile.py:29-56 | the index then reflects what it did of the files on disk; orphans are exactly the indexed files gone from disk; the ledger loses exactly the rows of documented orphans |
| Reconcile.SweepEqualsRebuildIff | backend/freshness/reconcile.py:3-7 | the swept index equals a rebuilt one if and only if no added or edited file was missed before |
| Reconcile.SweepKeepsStepIff | backend/freshness/reconcile.py:46-54 | a ledger in step stays so if and only if every orphan had a document |
| Reconcile.BlankOrphanKeepsRow | backend/freshness/reconcile.py:49-54 | the failing input: the row of an orphan without documents stays in the ledger |
| Quota.BudgetsSplitMonth | backend/quota/ledger.py:45-52 | indexing budget and serving reserve are non-negative and add up to the month |
| Quota.AllowanceGrowsWithinBudget | backend/quota/ledger.py:76-92 | the unlocked allowance never falls with time and never exceeds the indexing budget |
| Quota.BudgetIsUnreservedShare | backend/quota/ledger.py:45-55 | the indexing budget is the unreserved share of the month rounded down, and a tranche its part rounded down |
| Quota.TranchesUnlockByWeek | backend/quota/ledger.py:76-89 | on any day of week k, from 0, k + 1 tranches are unlocked; one before the period, all after its last week |
| Quota.AvailableIsUnspent | backend/quota/ledger.py:91-92 | what is available and what is spent make up what is unlocked, and nothing is available once that is spent |
| Quota.QuotaPool.Record | backend/quota/ledger.py:111-116 | usage is added to the counter of its kind and to no other |
| Driver.LLMRouter.Route | backend/llm/router.py:91-130 | usage reaches the pool before the reply is parsed, so a reply that does not parse is charged too |
| Driver.SummariseActivities.SummariseOne | backend/summarise/driver.py:140-205 | the outcome and the new pool, ledger, dead letters and summaries for each kind of reply |
| Driver.SummariseActivities.SummariseFiles | backend/summarise/driver.py:87-137 | skip, hold and spend for a whole list; after the first hold nothing is called |
| StoredTexts.BatchStoresAnswers | backend/summarise/driver.py:182-205 | a file reported as summarised has stored under its key exactly the text of the gateway's answer to its own call, which is the first after those of the files before it |
| StoredTexts.OneServiceApart | backend/summarise/driver.py:187-190 | files of one service with different paths have different summary keys, as the row above asks |
| StoredTexts.OtherTextsStay | backend/summarise/driver.py:104-137 | a key under which no file was summarised holds what it held |
| StoredTexts.RunStoresAnswers | backend/summarise/driver.py:182-193 | over every run with crashes, a stored summary was there or in flight at the start, or is the answer given at some step to the call for the very file it is stored under |
| StoredTexts.StoredWasAnswered | backend/summarise/driver.py:182-193 | from a start: it was there, or it was answered for that file in the run |
| StoredTexts.SummariesStay | backend/summarise/driver.py:184-193 | no step of a run removes a summary |
| Driver.PromptTellsFile | backend/summarise/tiers.py:85-92 | prompts of files with different paths or contents differ |
| Driver.EstimateCountsWords | backend/summarise/tiers.py:95-103 | a call is reserved at 160 tokens and one for each word, an empty file counting one |
| Driver.OversizedByLength | backend/summarise/driver.py:158-165 | a prompt is too large exactly when it has more than three characters a token of the limit; 0 is no limit |
| Driver.DeclaredHashIsTaken | backend/summarise/driver.py:62-63 | a non-empty declared hash is taken, else the content is hashed |
| Driver.ApprovedWithinAllowance | backend/quota/governor.py:66-79 | spending is approved exactly when it stays within what is unlocked |
| Driver.RowsTellOutcome | backend/summarise/driver.py:194-205 | a file is done exactly when its row is of a finished summary at its hash and prompt version; a buried file's is not |
| Driver.ReportMissesOnlyNonJson | backend/summarise/driver.py:165-178 | the report's token total plus the tokens of exactly this run's calls whose answer was not JSON is what the pool was charged |
| Workflow.ContinueAsNewInvisible | backend/orchestration/workflow.py:86-98 | for any two cadences the final outcome, ledger, pool, summaries and queue are the same |
| Workflow.CostAddsUp | backend/orchestration/workflow.py:35-36 | a service is reserved at the sum of its files' estimates, an empty one at one token |
| Workflow.DriveConservesQueue | backend/orchestration/state.py:37-41 | completed followed by pending is always the initial queue; finished means nothing is pending |
| Workflow.RunCountOfFinishedDrive | backend/orchestration/workflow.py:77-98 | n services at r per run end with floor((n - 1) / r) continuations |
| Workflow.WorkflowState.CompleteCurrent | backend/orchestration/state.py:37-41 | the head of the queue moves to the end of the completed list |
| Workflow.InMemoryWorkflowStore.Load | backend/orchestration/state.py:52-63 | a checkpoint comes back as a fresh object equal to what was saved, so later changes do not reach it |
| Workflow.IndexingWorkflow.RunIndexing | backend/orchestration/workflow.py:48-83 | the live loop over mutable state does what `RunTranche` says, checkpoints included |
| Workflow.IndexingWorkflow.DriveToEnd | backend/orchestration/workflow.py:86-98 | repeated runs end for every cadence, with the result of `Drive` |
| WorkflowIsARun.FileIsSteps | backend/summarise/driver.py:104-205 | treating one file is a run of single effects of the machine |
| WorkflowIsARun.BatchIsARun | backend/summarise/driver.py:104-137 | so is treating the files of a service |
| WorkflowIsARun.ServiceIsARun | backend/orchestration/workflow.py:57-83 | so is one approved service with its checkpoint and continuation |
| WorkflowIsARun.DriveIsARun | backend/orchestration/workflow.py:57-98 | the whole workflow is an uninterrupted run of the crash machine, with the same world, checkpoint, state and outcome |
| WorkflowIsARun.ResumeIsADrive | backend/orchestration/workflow.py:57-98 | a worker that is down or has stopped goes on, once resumed, exactly as a drive from the last checkpoint with the world as it was left |
| CrashMachine.StepWellPlaced | backend/orchestration/workflow.py:57-83 | every effect, crash and resumption leaves the machine at a point of the program |
| CrashMachine.CrashesAreCounted | backend/orchestration/workflow.py:48-85 | a crash of a live worker, or a fault, is counted once, and nothing else is |
| CrashSafety.SpendIsAccountedForInEveryRun | backend/summarise/driver.py:140-205 | over every run with crashes, pool spend is what summarised files cost, plus dead-lettered calls, plus calls cut off before the ledger write, plus the call in that gap now |
| CrashSafety.CrashLosesOnlyTheGap | backend/llm/router.py:110-130 | a crash duplicates at most the one charged and unrecorded call; a crash at the call itself duplicates nothing |
| CrashSafety.GapStep | backend/summarise/driver.py:182-205 | between charge and ledger write the charge stays with its file, and the write settles it |
| CrashSafety.RecordedSpendAfterWrite | backend/summarise/driver.py:182-205 | a ledger write moves exactly one file's cost into the recorded spend |
| ExactSpend.SpendIsExactInEveryRun | backend/orchestration/workflow.py:48-98 | in every run with fixed costs and parseable replies, whatever overruns, holds, exhausted quotas and crashes, the pool has been charged the cost of the files newly summarised, plus one call per crash in the gap, plus the call in the gap now |
| ExactSpend.FinishedRunSpendsExactly | backend/orchestration/workflow.py:48-98 | a fresh queue driven to completion through any crashes has charged each file not already summarised once, plus one such call per crash in the gap, and every file is summarised |
| ExactSpend.RunConservesQueue | backend/orchestration/state.py:37-41 | memory and checkpoint hold the same queue through every crash |
| ServiceAtomicity.CompletedServicesAreSettled | backend/orchestration/workflow.py:62-75 | in every run whose calls stay within their estimates, every file of every completed service is summarised at its content or dead-lettered, and nothing in an approved service is held |
| ServiceAtomicity.OverrunLeavesServiceHalfIndexed | backend/summarise/driver.py:115-119 | when the first call overruns so far that the second file does not fit, the service is completed with that file missing |
| OverrunBound.NothingHeldIffFits | backend/summarise/driver.py:104-137 | no gateway whose calls overrun by at most o holds a file of the service if and only if in order each due file fits the room left by the estimates and overruns of the calls before it; oversized files ask for room and take none |
| OverrunBound.NothingHeldIffOverrunsFit | backend/summarise/driver.py:104-137 | for services without oversized due files the same in closed form: the due estimates plus (m - 1) * o fit what is available |
| OverrunBound.FittingHoldsNothing | backend/summarise/driver.py:115-119 | with room for the worst case no gateway holds a file |
| OverrunBound.WorstGatewayHolds | backend/summarise/driver.py:115-119 | without it, the gateway that always overruns by o does |
| OverrunBound.NoneHeldSettles | backend/summarise/driver.py:104-137 | when nothing is held, the ledger shows every file at its content, summarised or dead-lettered |
| OverrunBound.ExhaustedQuotaHolds | backend/summarise/driver.py:173-175 | an exhausted quota after approval holds that file with any room |
| TrancheBudget.TranchesAreNeverBorrowed | backend/quota/governor.py:66-79 | over every run with non-decreasing days, indexing spend exceeds the unlocked tranches, and hence the budget, by at most one call's overrun |
| TrancheBudget.HigherTiersNeverBorrow | backend/summarise/higher.py:148-185 | the module and service tiers keep the same bound |
| TieredMachine.TieredSpendIsAccountedFor | backend/orchestration/activities.py:126-189 | over every run of the production activity with any crashes, spend is what the files account for plus every unit call, each crash cuts off at most one charge, and no summary is made again from the very children of the one before |
| TieredMachine.BeginIsAccounted | backend/orchestration/workflow.py:57-62 | every start, from any world and checkpoint, is accounted for, so the theorem before holds of every run |
| TieredMachine.TieredRunNeverBorrows | backend/summarise/higher.py:148-185 | with module and service calls in the run, over any crashes and days, spend exceeds the unlocked tranches by at most one call's overrun |
| TieredMachine.UnitsAreARun | backend/summarise/higher.py:134-186 | the loop over the units of a tier is an uninterrupted run of that machine |
| TieredDrive.FilesAreARun | backend/summarise/driver.py:104-137 | so is the loop over the files of a service |
| TieredDrive.ActivityIsARun | backend/orchestration/activities.py:113-189 | the whole activity on an approved service, with its hand-overs from tier to tier, is an uninterrupted run, with the activity's world and outcome |
| TieredDrive.TieredDriveIsARun | backend/orchestration/workflow.py:45-98 | the workflow with the production activity, for every gateway, cadence and start, is an uninterrupted run, with the same world, checkpoint, state and outcome |
| TieredDrive.TieredSpendIsExact | backend/orchestration/activities.py:95-98 | over every run with fixed costs of files and units and parseable answers, whatever holds, exhausted quotas and crashes it has, spend is the cost of the files newly summarised and of the unit summaries stored, none made again from the very children of the one before, plus one call for each crash between a charge and its record, plus the call in that gap now |
| UnitBound.NoUnitHeldIffFits | backend/summarise/higher.py:148-168 | when a tier begins, no gateway whose calls overrun by at most o holds a unit of it if and only if in order each unit to make fits the room left by the costs and overruns of the calls before it |
| UnitBound.FullReserveHoldsNoUnit | backend/orchestration/activities.py:91-93 | with the calls of all three tiers and all overruns but one available at the approval, no module and no service summary is held |
| UnitBound.DefaultReserveHoldsModule | backend/orchestration/workflow.py:35-44 | the failing input with the default cost of tier 1 only: one file at its estimate uses all of it, and its module is held |
| Tiers.JoinInjective | backend/summarise/tiers.py:163-169 | joining digests with the separator loses nothing |
| Tiers.HashIdentifiesChildren | backend/summarise/tiers.py:163-169 | the higher-tier key changes exactly when the multiset of child hashes does |
| Tiers.HashIgnoresOrder | backend/summarise/tiers.py:163-169 | the order of children never matters |
| Tiers.KeySpelledOut | backend/summarise/tiers.py:163-169 | the text hashed for one child and for two, in either order |
| Tiers.ModuleIsFolder | backend/summarise/tiers.py:77-82 | the module of a file in a folder is the folder; of one in none, the service |
| Tiers.SameModuleIffSameFolder | backend/summarise/tiers.py:77-82 | files in folders share a module if and only if they share the folder |
| Tiers.RootModule | backend/summarise/tiers.py:77-82 | files in no folder share one, and share it with a folder exactly when it is named like the service |
| Pyramid.ModuleUnitSpeaksOf | backend/summarise/higher.py:88-98 | a module's call speaks of the stored texts of its files and their hashes, and is reserved at 160 tokens and their words |
| Pyramid.ServiceUnitSpeaksOf | backend/summarise/higher.py:113-126 | a service's call speaks of the stored texts of its modules, likewise, reserved at 180 tokens and their words |
| Pyramid.WordsAddUp | backend/summarise/tiers.py:202-209 | words are counted text by text, an empty text as one |
| PyramidRun.IndexServiceActivities.TreatUnit | backend/summarise/higher.py:148-185 | skip, hold, generate or dead-letter for one unit, with the state each leaves |
| PyramidRun.IndexServiceActivities.RunUnits | backend/summarise/higher.py:134-186 | the loop over units does what `TreatedUnits` says |
| PyramidRun.GroupByModule | backend/orchestration/activities.py:156-168 | files are grouped under their module, in order of first appearance |
| PyramidRun.GroupsAreFolders | backend/orchestration/activities.py:156-168 | two listed files of folders are in one group if and only if their folders are the same, and each is in the group of its folder alone |
| PyramidRun.RootFilesAreOfService | backend/orchestration/activities.py:156-168 | a listed file in no folder is in the group of the service alone |
| PyramidRun.GroupsHoldListed | backend/orchestration/activities.py:156-168 | the groups hold the listed files, all of them and nothing else |
| PyramidRun.IndexServiceActivities.SummariseHigherTiers | backend/orchestration/activities.py:146-189 | tier 2 from the stored file summaries, then tier 3 from the stored module summaries |
| PyramidRun.IndexServiceActivities.SummariseService | backend/orchestration/activities.py:126-141 | the three tiers of a service do what `Activity` says |
| PyramidCascade.RerunSpendsNothing | backend/orchestration/activities.py:113-189 | after a run without hold or dead letter, running again makes no call and changes nothing, on any gateway and day |
| PyramidCascade.CleanActivityIsFresh | backend/orchestration/activities.py:113-189 | such a run leaves every file done and every module and service summary made from its present children |
| PyramidCascade.FileCascade | backend/summarise/driver.py:104-137 | exactly the files whose content is not yet done are called |
| PyramidCascade.ModuleCascade | backend/summarise/higher.py:148-185 | a known module is called exactly when the multiset of its files' hashes changed |
| PyramidCascade.ServiceCascade | backend/summarise/higher.py:148-185 | the service is called exactly when the multiset of its module hashes changed |
| PyramidCascade.UntouchedModuleKeepsChildren | backend/orchestration/activities.py:156-168 | a module with no called file keeps its children |
| PyramidCascade.SwappedContentsLeaveModuleUpToDate | backend/summarise/tiers.py:163-169 | two files of a module that exchange contents leave its summary in place |
| EditCascade.EditAfterCleanRun | backend/orchestration/activities.py:113-189 | when every file the ledger shows as done has its summary stored (`InSync`): after a clean run, editing files makes the next clean run call exactly the files whose content hash differs, exactly the modules whose files' content hashes differ as a multiset, and the service exactly when the module hashes made from them do |
| EditCascade.CleanBatchStores | backend/summarise/driver.py:182-205 | from such a state (`InSync`) a clean batch leaves every file with a stored summary of its content |
| NextRun.CleanBatchStoresIffInSync | backend/summarise/driver.py:182-205 | from any state, it does so if and only if every file the ledger showed as done had one |
| NextRun.NextTier1 | backend/summarise/driver.py:182-205 | what tier 1 of a clean run leaves stored under every key: the content's hash of the file called, else what was there |
| NextRun.NextCleanRun | backend/orchestration/activities.py:113-189 | from any stored state and for any list of files, whatever came, went or changed, a clean run calls exactly the files not shown as done, the modules whose stored summary is not of the children they will have, and the service if its own is not of the module hashes they will have |
| NextRun.KnownModuleCalledIffChildrenDiffer | backend/summarise/higher.py:148-157 | after a clean run a module known then is called exactly when the multiset of its child hashes becomes another |
| NextRun.LostFilesAreNotSeen | backend/orchestration/activities.py:156-168 | when files are gone after a clean run and none is new or edited, nothing is called and nothing changes: modules keep summaries made from files that no longer exist |
| SummarySync.EveryRunKeepsSync | backend/summarise/driver.py:182-205 | over every run with any crashes, a file the ledger shows as done has a stored summary of its content, when files are told apart by their summary keys |
| SummarySync.EveryTieredRunKeepsSync | backend/orchestration/activities.py:126-189 | the same over every run of the production activity |
| SummarySync.InSyncFromStart | backend/orchestration/activities.py:95-98 | from any world in sync, every crashed and resumed run of the production activity ends in one |
| SummarySync.StoringKeepsSyncIff | backend/summarise/driver.py:186-194 | storing a file's summary keeps that exactly when no file of other content is done under the same summary key |
| CarriedSummaries.BackedIsInSync | backend/summarise/driver.py:182-205 | rows with their summaries stored put any list of files in sync |
| CarriedSummaries.RenameKeepsBackingIff | backend/freshness/reindex.py:121-127 | a rename keeps every summarised row with its summary if and only if it carries no row, or a summary of the file's hash is stored under the new path already |
| CarriedSummaries.DiffKeepsBackingIff | backend/freshness/reindex.py:138-160 | so does a whole diff if and only if every carried row left standing has such a summary |
| CarriedSummaries.CarriedRenameLosesSummary | backend/freshness/reindex.py:92-99 | the failing input: a summarised file renamed with its content counts as done, has no summary under its new path, and a run skips it |
| ServiceActivity.FullActivities.IndexStructure | backend/orchestration/activities.py:116-124 | files with no document yet are indexed, nodes and edges upserted; a service without work is passed over |
| ServiceActivity.FullActivities.Tier | backend/orchestration/activities.py:146-189 | the tier reported is the highest the stored summaries reach |
| ServiceActivity.FullActivities.SummariseService | backend/orchestration/activities.py:113-144 | structure, then the three tiers, then the coverage mark with the tier reached; a fault leaves no mark |
| ServiceActivity.StructureIsIdempotent | backend/orchestration/activities.py:116-124 | re-running the structural part changes nothing |
| BreadthFirst.Search | backend/graph/queries.py:87-107 | bucket h holds, sorted and once each, exactly the keys at shortest distance h, for 1 <= h <= the bound; on any graph, cyclic or not |
| BreadthFirst.Visit | backend/graph/queries.py:101-106 | expanding one key keeps the search sound, its buckets exact and its queue in order |
| BreadthFirst.ReachIsSeen | backend/graph/queries.py:93-106 | once nothing waits, whatever a walk within the bound reaches has been seen at no more hops |
| BreadthFirst.SeenAtDistance | backend/graph/queries.py:93-106 | the hop recorded is the shortest distance, in both directions |
| BreadthFirst.DistanceReverses | backend/graph/queries.py:38-48 | distances along a relation and its converse agree |
| StructuralQueries.ServiceDependencies | backend/graph/queries.py:38-44 | exact buckets over outgoing calls; an unknown service yields nothing |
| StructuralQueries.ServiceDependents | backend/graph/queries.py:46-48 | exact buckets over incoming calls |
| StructuralQueries.MirrorsAreConverse | backend/graph/store.py:65-73 | the mirror invariant makes the two stepping relations converses |
| StructuralQueries.HopIsACall | backend/graph/queries.py:38-53 | one hop is one CALLS edge of the graph, out of the service for dependencies, into it for dependents |
| StructuralQueries.DependenciesAndDependentsAgree | backend/graph/queries.py:38-48 | y is in x's dependencies at hop h if and only if x is in y's dependents at hop h |
| FlowPaths.ChainsExact | backend/flows/identify.py:74-85 | the search from a path reports exactly the reported chains that continue it |
| FlowPaths.ChainsDistinct | backend/flows/identify.py:74-85 | no chain is reported twice |
| FlowPaths.CalleesAreDistinct | backend/graph/queries.py:55-58 | in a valid store whose calls join services, no callee is listed twice |
| FlowPaths.ChainWalk.Dfs | backend/flows/identify.py:74-85 | the recursion appends exactly its chains and terminates on cyclic graphs |
| FlowPaths.WalkCalls | backend/flows/identify.py:68-87 | exactly the simple call paths from the start that have full length, or have at least two services and cannot continue, for every bound |
| FlowPaths.CallChains | backend/flows/identify.py:57-65 | the chains of all services nothing else calls, and no others |
| FlowPaths.EventLinks | backend/flows/identify.py:90-101 | exactly the pairs of a publisher and a different consumer of a topic |
| FlowPaths.CallsFollowGraph | backend/graph/queries.py:55-63 | a callee is at the end of a CALLS edge of the service, and nothing calls an entry |
| FlowPaths.UncalledIsEntry | backend/flows/identify.py:60-62 | a service that nothing calls is an entry |
| FlowPaths.LinkIsPublishedAndConsumed | backend/flows/identify.py:90-101 | an event link is a topic one publishes to and another consumes from |
| FlowPaths.CandidateIsNamed | backend/flows/identify.py:104-112 | an id is the services, hyphenated, and the first six characters of the signature; the title names every service |
| FlowPaths.FlowsNameTheirTrigger | backend/flows/identify.py:44-52 | a flow names its chain and the call graph, or publisher, consumer and topic |
| FlowPaths.PairCrosses | backend/flows/identify.py:29-31 | a pair of services crosses services exactly when they differ |
| FlowPaths.IdentifyFlows | backend/flows/identify.py:38-54 | sorted by id, each id once; only flows the graph offers, under their own id and signature, and every offered id |
| FlowPaths.DistinctNamesServeAll | backend/flows/identify.py:38-54 | when ids tell flows apart, the answer is exactly the set of offered flows |
| GraphCollection.AddNewIsUnion | backend/ingestion/pipeline.py:65-85 | de-duplication keeps every key once, keeps what was there, invents nothing |
| GraphCollection.IngestionResult.AddFile | backend/ingestion/pipeline.py:65-85 | the collected nodes and edges are the old ones and the first of each new key |
| GraphCollection.CollectedKeysAreUnique | backend/ingestion/pipeline.py:51-85 | a collected graph has the unique keys the partitioned load needs |
| EstatePartition.SplitConserves | backend/orchestration/work.py:56-98 | splitting by owner loses and repeats nothing |
| EstatePartition.OwnedIsListed | backend/orchestration/work.py:65-73 | a node on record as owned by a service is in that service's list |
| EstatePartition.SharesAreOwn | backend/orchestration/work.py:56-98 | a service's share is exactly its own nodes, its chunks and files, and the edges with both ends its own |
| EstatePartition.TheRestIsShared | backend/orchestration/work.py:65-83 | what is of no service, and the edges whose ends are not of one service, are kept apart |
| EstatePartition.OwnerIsNamed | backend/orchestration/work.py:47-52 | a service node is its own; any other node is of its non-empty service property |
| EstatePartition.OwnerIsOfLast | backend/orchestration/work.py:62-67 | the owner on record is that of the last node of the key |
| EstatePartition.FileGrowsByChunk | backend/orchestration/work.py:85-92 | a file's input is its chunks' texts in order, a line break between them |
| EstatePartition.FileStaysWithoutChunk | backend/orchestration/work.py:85-92 | and chunks of other files change nothing of it |
| EstatePartition.FilesByServiceThenPath | backend/orchestration/work.py:89-92 | files are listed by service, those of one service by path |
| EstatePartition.BuildWorkByService | backend/orchestration/work.py:56-98 | the loops produce each service's share of nodes, edges, chunks and files in order, the global nodes and the crossing edges; each chunked file once, sorted |
| EstateLoad.OwnEdgesFindEndpoints | backend/orchestration/work.py:75-83 | both endpoints of a service's own edges are among its own nodes |
| EstateLoad.PartitionedEqualsBulk | backend/orchestration/activities.py:123-124 | any run over all services with any repeats and interleavings, each service's nodes before its edges, then the finalizer, leaves the very database of one bulk load, properties included |
| EstateLoad.FinalisingFirstLosesEdges | backend/orchestration/worker.py:106-108 | with the finalizer first, an edge from an owned new node to another service is missing at the end, though a bulk load has it |
| FinaliserPlace.AroundWrites | backend/orchestration/worker.py:98-108 | with the finalizer at any place in an orderly run, the database left: all nodes, the services' own edges, and the crossing edges whose ends were there by then |
| FinaliserPlace.FinaliserLosesNothingIff | backend/orchestration/worker.py:98-108 | that is the bulk load if and only if every crossing edge a bulk load has found its ends by then, or was there already |
| EstateLoad.PartitionIsCatalogued | backend/orchestration/work.py:85-92 | the partition's files have the distinct keys the spend theorems ask for and are exactly what the workflow treats |
| EstateLoad.StepsWrite | backend/graph/neo4j_store.py:45-77 | a sequence of upserts, with edges to missing endpoints dropped, amounts to the set of rows written |
| EstateLoad.BulkLoadSetsNodes | backend/graph/neo4j_store.py:45-63 | a bulk load sets the properties of every node of the graph, leaves those its row does not mention, and every other node, as they were |
| EstateLoad.BulkLoadSetsEdges | backend/graph/neo4j_store.py:65-77 | likewise of every edge whose ends are there then; any other is dropped |
| BinPacking.BinPack | backend/quota/governor.py:102-122 | the in-place packing yields the first-fit packing of the services in decreasing order of cost |
| BinPacking.Take | backend/quota/governor.py:114-119 | the first week with room is charged, and only it |
| BinPacking.EachServiceOnce | backend/quota/governor.py:112-122 | every service is scheduled or left over, as often as it was given |
| BinPacking.CapacityIsKept | backend/quota/governor.py:114-119 | no used week exceeds its capacity, whatever the costs |
| BinPacking.PackingIsTight | backend/quota/governor.py:112-122 | for non-negative costs a service left over exceeds every remainder, used weeks come first, and any two used weeks together exceed the capacity |
| BinPacking.UsedWeeksCarry | backend/quota/governor.py:112-122 | m >= 2 used weeks carry more than floor(m / 2) times the capacity |
| BinPacking.WeeksAreDecreasing | backend/quota/governor.py:112-113 | when the packed list falls in cost, ties by name, so do every week and the leftovers |
| BinPacking.PackingIsDecreasing | backend/quota/governor.py:112-122 | the packed list, every week and the leftovers fall in cost, ties by name, and a service left over fits no week beside the services in it at least as costly as itself |
| BinPacking.PackingBound | backend/quota/governor.py:102-122 | all of these of the packing that `bin_pack` returns |
| RateLimit.TokenBucket.TryConsume | backend/quota/governor.py:40-45 | accepts exactly when the refilled level covers the amount, and takes it |
| RateLimit.LevelIsKept | backend/quota/governor.py:40-57 | the level stays between zero and the capacity under any clock and any full refills |
| RateLimit.RateIsBounded | backend/quota/governor.py:40-57 | with a non-decreasing clock, the amount accepted between any two times is at most the capacity plus the inflow of that span |
| RateLimit.GrantedWithinInflow | backend/quota/governor.py:40-57 | a request is granted exactly when it is within a full bucket and within what was there and has flowed in since |
| RateLimit.ServingIsRingFenced | backend/quota/ledger.py:94-95 | serving is allowed exactly while it leaves the indexing budget of the month whole |
| RateLimit.CheckServing | backend/quota/governor.py:81-89 | serving is decided by its reserve and the bucket alone; refusal by the reserve leaves the bucket as it was |
| Residue.WindowModule | backend/ingestion/chunker.py:296-310 | ascending windows that cover the range exactly, none over the limit, all but the last full |
| Residue.MarkCovered | backend/ingestion/chunker.py:256-261 | a row is marked exactly when some span holds it |
| Residue.BlankIsWhiteSpace | backend/ingestion/chunker.py:266-281 | a line is blank when it holds nothing but white space |
| Residue.ModuleResidue | backend/ingestion/chunker.py:244-282 | the windows hold exactly the uncovered rows that lie on or between non-blank rows of an uncovered stretch |
| Residue.RunKeeps | backend/ingestion/chunker.py:266-281 | in a maximal uncovered run those are the rows left by trimming |
| Residue.WholeFileModule | backend/ingestion/chunker.py:285-293 | the same for a file without a grammar |
| Definitions.Collector.Collect | backend/ingestion/chunker.py:115-178 | the recursion yields the drafts and class spans of the definition forest, wrappers promoted |
| Definitions.DraftsAreDisjoint | backend/ingestion/chunker.py:115-178 | over row-disjoint, nested definitions, chunk spans are equal or disjoint |
| Definitions.DraftsStayInside | backend/ingestion/chunker.py:148-176 | everything drafted from a class's members, and its header, lies within the class |
| Definitions.HeaderHoldsRowsAbove | backend/ingestion/chunker.py:148-176 | the class chunk holds exactly the rows of the class above all that is drafted from its members, or the whole of a class without any |
| Definitions.KindsOf | backend/ingestion/chunker.py:130-136 | functions of a class are methods, others are functions |
| Definitions.WrappersGiveSpan | backend/ingestion/chunker.py:189-204 | a definition spans the topmost of the wrappers it stands under without a break |
| Definitions.WrappersGiveName | backend/ingestion/chunker.py:189-204 | it has its own name, or that of the nearest of those wrappers that declares one |
| Chunker.EmittedFacts | backend/ingestion/chunker.py:76-101 | one chunk per span, the first; only blank ones are dropped |
| Chunker.EmittedAscends | backend/ingestion/chunker.py:74-101 | sorted drafts give chunks in ascending, disjoint rows |
| Chunker.ResidueIsChunked | backend/ingestion/chunker.py:65-98 | every non-blank row outside all definitions and classes is in exactly one chunk, a module chunk |
| Chunker.ModulesStayInResidue | backend/ingestion/chunker.py:244-310 | every module chunk is cut from the file, touches no definition or class row and does not exceed the window |
| Chunker.ChunkSource | backend/ingestion/chunker.py:50-101 | all of these of the chunks returned, in order of their rows, and with pairwise disjoint rows when the definitions are disjoint and nested |
| Chunker.ChunkTells | backend/ingestion/chunker.py:318-345 | a chunk has its file, kind and symbol, its lines counted from 1, and the text of its rows |
| Chunker.SliceGrowsByLine | backend/ingestion/chunker.py:313-315 | that text is its lines, a line break between them; rows past the end add nothing |
| FlowReview.FlowNarrativeService.Generate | backend/flows/service.py:53-93 | the loop does what `GenerateAll` says, stops where the gateway fails, and its counts add up |
| FlowReview.FlowNarrativeService.Approve | backend/flows/service.py:97-111 | the narrative is approved with its present text on record; an unknown id changes nothing |
| FlowReview.FlowNarrativeService.InvalidateOnChange | backend/flows/service.py:121-134 | exactly the approved narratives touching a changed service are flagged and reported, sorted |
| FlowReview.FlowNarrativeService.EvidenceFor | backend/flows/service.py:138-147 | exactly the approved narratives touching the anchors, in order of id |
| FlowReview.EvidenceIsApproved | backend/flows/service.py:138-147 | evidence is the approved narratives one of whose services is an anchor, all of them and no others |
| FlowReview.HitShows | backend/flows/service.py:173-186 | a hit shows the narrative's text under its title, at its first service, over as many lines as it has |
| FlowReview.CurrentIffSameStructure | backend/flows/service.py:60-66 | a candidate is passed over exactly when its narrative was made from this signature and prompt version |
| FlowReview.GeneratedAwaitsReview | backend/flows/service.py:72-91 | what is generated has the writer's words and awaits review; of an existing narrative all else stays |
| FlowReview.ApprovalRecords | backend/flows/service.py:97-111 | approval records the present text and the architect and changes nothing else |
| FlowReview.ReasonNamesShared | backend/flows/service.py:128-132 | the reason given names exactly the services the change and the flow share, each once, in order |
| FlowReview.StaleIdsExact | backend/flows/service.py:121-134 | the ids reported are sorted, distinct and exactly the stale ones |
| FlowLifecycle.ServedOnlyByApproval | backend/flows/service.py:43-171 | after any action a narrative is served only if that action approved it, or it was served and is unchanged |
| FlowLifecycle.InvalidationWithholds | backend/flows/service.py:121-134 | invalidation alters status and reason only, and withholds exactly what touches a changed service |
| FlowLifecycle.ServedTextIsLastApproved | backend/flows/service.py:97-111 | over every history an approved narrative's text is the text its last approval saw |
| FlowLifecycle.StaleClaimsStayWithheld | backend/flows/service.py:121-147 | after an invalidation, whatever follows, a narrative touching a changed service is served only after a new approval |
| FlowLifecycle.RegenerationIsFree | backend/flows/service.py:59-66 | generating again for the same flows makes no call and touches no narrative |
| FlowLifecycle.IdentifiedFlowsGenerateOnce | backend/flows/identify.py:38-54 | so does generating twice for the flows just identified |
| FlowLifecycle.ReindexThenFlag | backend/freshness/reindex.py:138-160 | after a reindex exactly the served narratives touching an affected service are flagged and returned, sorted, and none is served that touches a service whose indexed content changed |

## Left out

- Byte decoding, Unicode white space and the parsing of syntax trees: text is a sequence of characters, and a tree is an input.
- BM25, cosine and tokenising: `Scoring` and `Analyzer` are parameters that see the document, its terms, the frequency table, the number of documents and the total length.
- SHA-256: a parameter; injectivity is a hypothesis where a property needs it, so truncation to 16 digits is not modelled.
- Retries inside the router: one `Reply` stands for the answer after retries.
- Commit stamps, update times, prompt rendering beyond the text it hashes or measures, personas, metrics, audit logs.
- The walker's noise filters: a rebuild ingests every file the manifest owns, as the reindexer does.
- CALLS and topic edges after a reindex: the reindexer does not recompute them, so only chunks, file and function nodes, DEFINES edges and the edges that place files in modules are compared.
- Paths holding `#`: excluded by `Plain`, because function keys are found by the prefix `path#`.
- Path normalisation of `PurePosixPath` (doubled or trailing slashes).
- The Temporal wrapper, the Postgres, Neo4j and OpenSearch adapters, the API, the command line and the frontend; of the Neo4j adapter only what its MERGE and MATCH statements mean is used, rows being applied in list order and not label by label.
- Monthly reset of the pool, freshness marks, the review queue view.
- `direct_callers`, `definitions_of` and the Cypher builders: one expression each.
- Identifiers of chunks (`_identifiers`): a parameter of chunk assembly.
- Order of dictionary keys: hop buckets and search maps are maps; the source builds the former in order of hops.
- GraphStore.InMemoryGraphStore.DeleteNode: of the listing by kind the nodes are stated, not their order; the reindexer and a rebuild list the same nodes in different orders.
- UnitBound.FullReserveHoldsNoUnit: the reserve is of the calls the run makes; how near the estimator's figure for a service comes to it is not part of this model.
- Reconcile.ReconcileIndex: the report's counts of deleted chunks and nodes are not stated, only its orphans.
- ServiceAtomicity.CompletedServicesAreSettled: a gateway that reports exhausted quota after the governor has approved the service is excluded, since the source then holds that one file and goes on (`OverrunBound.ExhaustedQuotaHolds`); the spend theorems cover such runs too.
- TrancheBudget.TranchesAreNeverBorrowed: the machine is that of the tier-1 activity; `TieredMachine` has the tiers above; flow generation is in neither, since the source does not gate it.
- PyramidRun.IndexServiceActivities.SummariseService: the structural writes and the coverage mark around the tiers are in `ServiceActivity.FullActivities.SummariseService`, which leaves out the mark's status and time.
- FlowReview.FlowNarrativeService.Generate: an existing narrative that is generated again keeps its old signature, prompt version, title and services, as in the source.
- Chunker.ChunkSource: without disjoint and nested definitions nothing is promised about chunks of definitions sharing rows; the facts about module chunks hold regardless.
