# A verified model of the memory kernel's core

The repository is a memory kernel on SQLite. This project models the parts of it where correctness is hardest to
see by reading, and proves what they promise. Tables are maps, sets and sequences; a `db.transaction(...)` is one
atomic step. Run `dafny verify dfyconfig.toml` here to check everything.

| files | what they model |
|---|---|
| `TimeBuckets`, `TimeProjection`, `RebuildStatements`, `RebuildSafety`, `RebuildLeases`, `RebuildProgress`, `RebuildCounterexamples` | the resumable, fenced rebuild of a project's time tables, racing with ingests and other workers |
| `AtlasEdges`, `AtlasPath` | the least-cost path query over the memory graph, with its hop and expansion caps |
| `FrameSupports`, `FrameConservation` | support counts of shared documents over repeated frame projections |
| `ValidityMerge`, `SnapshotFolds` | folding what one frame says about nodes and edges; merging validity ranges |
| `FrameStates`, `StateEdges` | which state a subject is in, decided across frames, and the HAS_STATE edges |
| `EpisodeRelations`, `FacetCuration` | sparse relation chains between episodes; full and incremental curation |
| `BeliefGovernance`, `BeliefHistory`, `GovernedOutcomes`, `BeliefRaces`, `BeliefForks`, `RacedRecords` | governed beliefs: supersession with full history, and calls that race |
| `BeliefStrength`, `BeliefStore`, `BeliefRevision`, `BeliefVerdicts`, `FrameRelationBeliefs`, `RelationReadings` | weighing and revising beliefs; recording frame relations as beliefs |
| `EpisodeTurns`, `EpisodeRepair`, `EpisodeMoves` | logical turns; checking and carrying out splits, merges and moves |
| `NamedTurns`, `NamedRecords` | writing a conversation turn under a caller's name, and retries of it |
| `Texts`, `LineRuns`, `FileLoaders`, `FileChunker`, `ChunkContents`, `ChunkedLines` | cutting a file into paragraphs and chunks |
| `Options`, `Folds` | shared notions |

## What was found

- The deletions that empty a job's snapshot and its staged links are not guarded, so a second worker that resumes the
  same generation can empty the snapshot of a ready job. The projection then ends marked clean over live tables that
  miss every neuron (`RebuildCounterexamples.TwoBuildersPublishTooLittle`). The safety theorem assumes just that this
  does not happen: while a job is current, nobody else is between emptying its snapshot and marking it ready, and
  nobody empties it once it is ready (`TimeProjection.ExclusiveStaging`). Any number of workers may page one
  generation's entries, even after another worker has marked its job failed.
- A fenced worker can still turn a clean projection into a failed one, because its two failure statements are not
  one transaction (`RebuildCounterexamples.LateFailureMark`). It never does more than that
  (`RebuildSafety.FencedWorkerIsInert`).
- A validity range that ends before it begins makes the edge merge depend on how often a mention is repeated
  (`ValidityMerge.MergesAgreeIff` says exactly when, `ValidityMerge.InvertedTwiceHasGap` shows one). The frame
  validator refuses a relation whose stated start is after its end (src/semantic/MemoryFrameValidator.ts:92), so such
  a range arises only when the frame leaves the start out and the evidence is later than the stated end
  (src/atlas/MemoryFrameProjector.ts:370; `SnapshotFolds.RepeatedAdmittedMention`, `SnapshotFolds.LateEvidenceTwiceIsDoubt`).
- A frame that says one subject likes two things can fail to be idempotent: exactly when its first pass leaves one of
  those claims neither recorded, nor refused, nor rejected (`FrameRelationBeliefs.SecondPassRestsIff`). The older liking
  named first is such a case (`FrameRelationBeliefs.FickleFrameIsWrittenAgain`); the same two likings in the other order
  are not (`FrameRelationBeliefs.ContestedFrameCanRest`). No other relations can contradict each other
  (`FrameRelationBeliefs.ClashIsTwoLikings`), so every other frame is idempotent
  (`FrameRelationBeliefs.SecondPassWritesNothing`).
- A named turn whose reply could not be written is stuck: under its identity only the user's words without a reply are
  answered as a duplicate, and the word-for-word retry the caller is told to make is refused for ever
  (`NamedTurns.HalfWrittenTurnIsStuck`). A turn whose user event was lost can be retried (`NamedTurns.FaultDecidesRetry`).
- Outside a project the unique index on the active belief binds nothing. There a key keeps its one active belief and its
  chain exactly when every transaction under it that goes through is in time: a correction finds the belief it read
  still active, and a first belief is still the first (`BeliefForks.KeepsChainIff` for one transaction,
  `BeliefForks.ChainedIffInTime` for every run). A late one forks the key for good, as two racing corrections do
  (`BeliefForks.ProjectlessCorrectionsFork`).
- Within a project late corrections and late first beliefs fail, so races keep one active belief a key, the chain links,
  the version rows and the evidence and conflict records (`BeliefRaces.RacesLeaveOneActive`,
  `BeliefRaces.RacesKeepVersions`, `RacedRecords.RacesKeepRecords`). A reinforcement has no such guard: it goes through
  on a belief superseded meanwhile, and returns an active belief exactly when the one it read is still active
  (`BeliefForks.ReinforcedIsActiveIff`, with the run `BeliefForks.SupersededIsReinforced`).
- When every frame has been retired, a legacy document has its first support count back only if that count already
  covered its other supports (`FrameConservation.RetiringAllFramesRestores`, `FrameConservation.UndercountedIsNotRestored`).
- A document that a frame created and that was then put under governance is not kept by the next rebuild: a recount
  drops it or makes it active again, unless no frame support names it (`FrameConservation.GovernedFromFrameIsKeptIff`).
- Incremental curation drops the episode-to-episode relations that touch its batch and does not restore them
  (`FacetCuration.IncrementalDropsRelations`, `FacetCuration.RelationOfBatchIsLost`).

## Assumptions

- Ids derived by hashing are injective; random ids, clock readings and query pages are inputs of the steps.
- Every change to a project's neurons bumps the source revision in the same transaction, and paged reads are ordered
  by creation time and id.
- `-Math.log` on [0.01, 1] is some non-negative function and exponential decay some falling function into [0, 1];
  arithmetic is over exact reals.
- The belief key normaliser is idempotent. Canonical belief keys and caller-chosen turn ids never collide with
  composed ones.
- Which characters count as white space is a parameter.
- Projecting a frame twice at one clock meets the same refusals: a claim whose transaction fails in the first pass fails
  in the second.
- While a rebuild job is current, its snapshot is restaged by one worker at a time and not once it is ready (see above).

## Model

| member | source | states |
|---|---|---|
| TimeBuckets.FindPrevious | src/store/TemporalAdjacencyStore.ts:275-281 | finds the latest bucket of the same kind and zone that starts earlier, or none exactly when there is none |
| TimeBuckets.FindNext | src/store/TemporalAdjacencyStore.ts:275-281 | finds the earliest bucket of the same kind and zone that starts later, or none exactly when there is none |
| TimeBuckets.SyncBuckets | src/store/TemporalAdjacencyStore.ts:47-71 | the loop over the touched buckets computes the relinking step of each, in order |
| TimeBuckets.RelinkRepairsTrack | src/store/TemporalAdjacencyStore.ts:57-68 | relinking one new bucket makes the links of its kind and zone exactly those of consecutive buckets again |
| TimeBuckets.SyncReachesLinks | src/store/TemporalAdjacencyStore.ts:47-71 | after syncing the added buckets the links are exactly the pairs of consecutive buckets of each kind, in both directions |
| TimeBuckets.PlanPlacesNeurons | src/engine/TopologyCompiler.ts:57-90 | the plan has an entry for every neuron in the day, week and month of its creation |
| TimeBuckets.PlannedIsPlaced | src/engine/TopologyCompiler.ts:57-90 | and no other entry |
| TimeBuckets.PlanLinksNeighbours | src/store/TemporalAdjacencyStore.ts:47-71 | a planned bucket is one with an entry, and two are linked exactly if they are of one kind with nothing of that kind between them |
| TimeBuckets.IncrementalIngestIsPlan | src/engine/TopologyCompiler.ts:57-90 | attaching one neuron to tables that follow the plan gives the plan of the larger set, so the incremental path agrees with the rebuild |
| TimeProjection.StageBucketPage | src/factory.ts:1522-1579 | the staging loop over a page carries the last bucket of each kind and emits the links its recursive description names |
| TimeProjection.PageAdvances | src/factory.ts:1396-1413 | committing a page and moving the cursor to its last row makes the neurons up to the cursor grow by exactly that page |
| TimeProjection.StagePage | src/factory.ts:1522-1579 | whatever the page boundaries, the staged links are those of the buckets processed so far |
| TimeProjection.BucketPageAdvances | src/factory.ts:1522-1579 | a bucket page moves the bucket cursor forward by exactly that page |
| TimeProjection.PageIsOldest | src/factory.ts:1396-1413 | a page takes the oldest neurons, by creation and then by id, that are newer than the cursor |
| TimeProjection.PageOrder | src/factory.ts:1522-1530 | a page lists days before months before weeks, and each kind by its start |
| RebuildStatements.IngestStaysCleanIff | src/store/TopologyStore.ts:222-250 | an ingest leaves a clean projection exactly if it finds a current clean one of its zone, or an empty database without one |
| RebuildStatements.ResumesIff | src/factory.ts:1362-1390 | a worker resumes the job it has seen, at its cursor or at the claim, exactly if that has not failed and is of its zone and the current revision |
| RebuildStatements.PageMovesCursorIff | src/factory.ts:1396-1413 | a page moves the cursor of its job exactly while that is being built for the worker's revision |
| RebuildStatements.GuardsAre | src/factory.ts:1450-1475 | publish and finish go through exactly on a ready job of the worker's generation, revision and token, and finish at the current revision alone |
| RebuildSafety.StepKeepsInv | src/factory.ts:1362-1468 | every statement of every worker, every ingest and every other change keeps the invariant, with any number of workers paging the entries of one generation, as long as one at a time restages its snapshot and links |
| RebuildSafety.RunKeepsInv | src/factory.ts:1362-1468 | so does every run from the empty database |
| RebuildSafety.PageSparesOthers | src/factory.ts:1395-1413 | a page of entries written while another worker restages the job, or after it is ready, leaves the staging rows as they were |
| RebuildSafety.CleanMeansLive | src/factory.ts:1362-1489 | over all interleavings with crashes, resumes, lease takeovers and job replacement, a projection marked clean holds exactly the plan of the neurons active now |
| RebuildSafety.ReadyMeansComplete | src/factory.ts:1390-1435 | wherever builders crashed and resumed, a ready job at the current revision has staged exactly the one-pass plan |
| RebuildSafety.CompletePublishesPlan | src/factory.ts:1470-1489 | publishing completely staged rows makes the live tables the plan |
| RebuildSafety.TokensStayDistinct | src/factory.ts:1439-1446 | no two workers ever hold the same publish token |
| RebuildSafety.AtMostOneOwner | src/factory.ts:1441-1456 | at any moment at most one worker passes the guard of the publish and finish transactions; `RebuildLeases` says when that can change |
| RebuildLeases.LeaseHoldsToken | src/factory.ts:1439-1446 | as long as the lease of a token lasts, no statement of any worker at a clock within it gives the job of that generation another token |
| RebuildLeases.ClaimTakesOver | src/factory.ts:1439-1448 | a claim of a ready job that is free or whose lease has ended puts the worker's token and a lease of 30 seconds on it |
| RebuildLeases.PublishRenewsLease | src/factory.ts:1450-1456 | the owner's publish extends its lease to 30 seconds from then |
| RebuildLeases.LeaseIsExclusive | src/factory.ts:1439-1456 | over every run within the lease a job of the generation that is still there has the same token and no shorter lease |
| RebuildLeases.ClaimantAlonePublishes | src/factory.ts:1439-1475 | after a claim in any run, whoever passes the publish guard with the job's token while the lease lasts is the worker that claimed it |
| RebuildSafety.FencedWorkerIsInert | src/factory.ts:1450-1475 | a worker whose generation or claim was replaced leaves live tables, job and neurons alone, and touches the status exactly when its next statement is the separate failure mark |
| RebuildSafety.FencedForGood | src/factory.ts:1371-1380 | a generation or claim that was replaced never comes back |
| RebuildProgress.HonestStepGoesOn | src/factory.ts:1362-1489 | a statement of a worker on track that is given its rows and fresh ids leaves it on track with less to do, or finishes the rebuild |
| RebuildProgress.UndisturbedFinishes | src/factory.ts:1362-1489 | from any database that satisfies the invariant, whatever job it holds, a worker that is not disturbed and does not throw marks the projection clean over the plan of the current neurons within 19 + 6 neurons + 2 buckets statements, whatever the page sizes |
| RebuildProgress.UndisturbedCanFinish | src/factory.ts:1362-1489 | and the rows, ids and clock readings it needs for that always exist |
| RebuildProgress.RunCanAlwaysFinish | src/factory.ts:1362-1489 | so a clean projection is within reach of every run, with whatever crashes and takeovers |
| RebuildCounterexamples.TwoBuildersPublishTooLittle | src/factory.ts:1415-1430 | a run in which a second worker empties the snapshot of a ready job ends clean at the current revision with live tables that miss every neuron |
| RebuildCounterexamples.LateFailureMark | src/factory.ts:1458-1466 | a run after which a fenced worker's next statement turns a clean projection into a failed one |
| AtlasEdges.CostIsPositive | src/atlas/MemoryAtlasService.ts:356-361 | every edge costs at least 0.12 |
| AtlasEdges.UniqueEdgesDistinct | src/atlas/MemoryAtlasService.ts:339-341 | after deduplication no two edges share source, relation and target |
| AtlasEdges.UniqueEdgesKeepLast | src/atlas/MemoryAtlasService.ts:339-341 | an edge survives deduplication exactly when it is the last one with its key |
| AtlasEdges.UniqueEdgesInOrder | src/atlas/MemoryAtlasService.ts:339-341 | the survivors stand in the order in which their identities are first listed |
| AtlasEdges.ArcIff | src/atlas/MemoryAtlasService.ts:171-176 | from a node one goes exactly over the last row of each edge listed for it, from either end to the other, to the target or a node that is shown |
| AtlasEdges.WalkCosts | src/atlas/MemoryAtlasService.ts:356-361 | a walk costs 0.12 a hop, 0.1 for each plain edge, 0.2 for each CONTRADICTS or CORRECTS edge, and the doubt in its confidences |
| AtlasEdges.CheapestIsLightest | src/atlas/MemoryAtlasService.ts:356-361 | a cheapest walk among edges of full confidence has the least weight in hops, plain and contradicting edges |
| AtlasEdges.BetterCostsLess | src/atlas/MemoryAtlasService.ts:356-361 | an edge of a better class of relation with no less confidence costs less |
| AtlasEdges.CheapestHasNoBetterParallel | src/atlas/MemoryAtlasService.ts:356-361 | no edge of a cheapest walk has a better parallel one |
| AtlasPath.RelaxEdges | src/atlas/MemoryAtlasService.ts:175-183 | looking at one node's edges lowers exactly to the cost over some of them, leaves none of them cheaper than recorded, and keeps the search invariant |
| AtlasPath.Rebuild | src/atlas/MemoryAtlasService.ts:185-193 | following parents back from the target ends at the start and yields the recorded walk in order |
| AtlasPath.Path | src/atlas/MemoryAtlasService.ts:155-197 | a found path is a real edge chain without repeated node within the hop cap that avoids the cut nodes and is the cheapest of all walks that do: with full confidences it has the least 0.12 a hop, 0.1 a plain edge and 0.2 a CONTRADICTS or CORRECTS edge, and none of its edges has a parallel one of a better class and no less confidence; an untruncated "not found" means every walk passes a cut node; a cut node is not the target and ends a simple walk that uses up the hop cap; truncated means 2000 expansions |
| AtlasPath.RecordedWalk | src/atlas/MemoryAtlasService.ts:159-182 | every recorded node has a simple walk from the start of exactly its recorded cost and hops |
| AtlasPath.HeadIsOptimal | src/atlas/MemoryAtlasService.ts:165-168 | when the target is popped its cost is at most that of every walk to it that passes no cut node |
| AtlasPath.DrainedMeansUnreachable | src/atlas/MemoryAtlasService.ts:164-184 | when the queue runs dry every walk to the target passes a cut node |
| AtlasPath.HeadAtCap | src/atlas/MemoryAtlasService.ts:169 | a node that is cut has a simple walk from the start as long as the hop cap |
| AtlasPath.ShallowNeverCuts | src/atlas/MemoryAtlasService.ts:169 | where no simple walk is as deep as the hop cap, the cap cuts nothing |
| AtlasPath.WalksReverse | src/atlas/MemoryAtlasService.ts:176 | with complete edge lists every walk runs backwards at the same cost |
| FrameSupports.FrameProjector.EnsureCanonicalBaselineSupport | src/atlas/MemoryFrameProjector.ts:268-306 | a legacy document without a baseline gets one for its count beyond the other supports, and nothing else changes |
| FrameSupports.FrameProjector.CollectNodes | src/atlas/MemoryFrameProjector.ts:69-153 | exactly the nodes a frame may contribute to are collected and exactly the missing documents created |
| FrameSupports.FrameProjector.FlushNodeSnapshots | src/atlas/MemoryFrameProjector.ts:217-264 | each collected node gets one active support of the frame, after its baseline |
| FrameSupports.FrameProjector.RecountDocument | src/atlas/MemoryFrameProjector.ts:455-499 | the document gets the sum of its active supports, or goes, or drops to zero, by what supports it |
| FrameSupports.FrameProjector.ReduceAffectedDocuments | src/atlas/MemoryFrameProjector.ts:452-503 | the loop recounts every affected node but the project's and no other |
| FrameSupports.FrameProjector.Rebuild | src/atlas/MemoryFrameProjector.ts:30-162 | one rebuild purges, invalidates, projects every frame and reduces, as its closed form says |
| FrameSupports.OneMoreFrame | src/atlas/MemoryFrameProjector.ts:63-155 | projecting one more frame extends the closed form of the frames before it |
| FrameConservation.LegacyCountsAreConserved | src/atlas/MemoryFrameProjector.ts:217-306 | over any run of rebuilds and status changes, a legacy document counts the larger of its first count and its other supports, plus one for each frame now supporting it |
| FrameConservation.CreatedDocumentsCountTheirFrames | src/atlas/MemoryFrameProjector.ts:452-503 | a frame-created document is there exactly while frames support it, and counts them |
| FrameConservation.RetiringAllFramesRestores | src/atlas/MemoryFrameProjector.ts:452-503 | with all frames retired the first count is back exactly if it covered the other supports or no frame ever reached the document |
| FrameConservation.UndercountedIsNotRestored | src/atlas/MemoryFrameProjector.ts:268-306 | a document that counts less than its other supports, mentioned by a frame since retired, comes out with a higher count |
| FrameConservation.RunKeeps | src/atlas/MemoryFrameProjector.ts:30-162 | every run keeps the counting invariant at every node |
| FrameConservation.SupportedIffMentioned | src/atlas/MemoryFrameProjector.ts:69-76 | after a rebuild a frame's support of a node is active exactly if the frame mentions the node and it and what it hangs on have an active, weak or purged document or none |
| FrameConservation.GovernedIsLeftAlone | src/atlas/MemoryFrameProjector.ts:73 | a document that is neither active nor weak has no active frame support and no new baseline after a rebuild, and one from before the frames keeps its status |
| FrameConservation.GovernedFromFrameIsKeptIff | src/atlas/MemoryFrameProjector.ts:460-488 | a governed document that frames created keeps its status exactly if no frame support names it or it is the project's |
| FrameConservation.MissingProjectIsCreated | src/atlas/MemoryFrameProjector.ts:455-456 | a missing project document is created with one support exactly when a frame mentions it, and is not recounted |
| ValidityMerge.MergeMemoryValidityIntervals | src/binding/MemoryEdgeMerge.ts:33-49 | the sweep with its component list computes the merge; an empty list is an error |
| ValidityMerge.MergeCovers | src/binding/MemoryEdgeMerge.ts:33-49 | whatever the ranges, the merge begins at the last point where a range begins after all earlier ones are over, ends where the ranges since then end, and is disjoint exactly when there is another such point or an inverted range begins first and is not alone |
| ValidityMerge.ProperEnd | src/binding/MemoryEdgeMerge.ts:44-48 | ranges that end after they begin merge to one that ends when they all have |
| ValidityMerge.MergeIgnoresOrder | src/binding/MemoryEdgeMerge.ts:34-35 | the order of the ranges never matters |
| ValidityMerge.MergeIgnoresRepeats | src/binding/MemoryEdgeMerge.ts:33-49 | for ranges that end after they begin, neither does repetition |
| ValidityMerge.RepeatChangesMerge | src/binding/MemoryEdgeMerge.ts:37-43 | repeating a range changes the merge exactly when the range is inverted, comes first, and there was no gap |
| ValidityMerge.MergeOfRepeats | src/binding/MemoryEdgeMerge.ts:33-49 | the merge of a list is that of its ranges taken once each, with a gap added exactly when the first of them is inverted and repeated |
| ValidityMerge.MergesAgreeIff | src/binding/MemoryEdgeMerge.ts:33-49 | two lists of the same ranges merge alike exactly when both repeat an inverted first range or neither does, or there is a gap anyway |
| ValidityMerge.InvertedTwiceHasGap | src/binding/MemoryEdgeMerge.ts:37-43 | a range from 5 to 3 merges differently when said twice |
| SnapshotFolds.FrameSnapshots.ContributeSupport | src/atlas/MemoryFrameProjector.ts:239-258 | one mention is folded into the node's snapshot and no other |
| SnapshotFolds.FrameSnapshots.ContributeEdge | src/atlas/MemoryFrameProjector.ts:366-409 | one mention is folded into the edge's snapshot and no other |
| SnapshotFolds.FrameSnapshots.Collect | src/atlas/MemoryFrameProjector.ts:64-155 | walking a frame's mentions leaves the folds of them all |
| SnapshotFolds.SnapshotSummarises | src/atlas/MemoryFrameProjector.ts:239-258 | a node snapshot is the union of evidence, the strongest payload with ties by text, the highest confidence and the earliest time of all mentions |
| SnapshotFolds.NodesIgnoreOrderAndRepeats | src/atlas/MemoryFrameProjector.ts:239-258 | node snapshots depend only on the set of mentions |
| SnapshotFolds.EdgeSnapshotSummarises | src/atlas/MemoryFrameProjector.ts:366-409 | an edge snapshot is the union of evidence and ranges, the highest confidence, the earliest creation, and in doubt if any mention is |
| SnapshotFolds.EdgesAgreeIff | src/atlas/MemoryFrameProjector.ts:366-421 | two lists of the same mentions reach the edge table alike exactly when both repeat an inverted first range or neither does, or there is a gap anyway, or a mention is in doubt |
| SnapshotFolds.EdgesIgnoreOrderAndRepeats | src/atlas/MemoryFrameProjector.ts:366-421 | what is merged for an edge depends only on the set of mentions unless the first range is inverted and no mention is in doubt |
| SnapshotFolds.EdgesIgnoreOrder | src/atlas/MemoryFrameProjector.ts:366-421 | the order of mentions never matters |
| SnapshotFolds.RepeatedEdgeMention | src/atlas/MemoryFrameProjector.ts:398-420 | repeating a mention reaches the edge table exactly when its range is inverted and first and the edge was not in doubt |
| SnapshotFolds.RepeatedAdmittedMention | src/semantic/MemoryFrameValidator.ts:92 | for relations the validator admits, a repeated mention matters exactly when the start was left out, the evidence is later than the stated end, no mention begins earlier, and the edge was not in doubt |
| SnapshotFolds.LateEvidenceTwiceIsDoubt | src/atlas/MemoryFrameProjector.ts:370 | a relation that ended before its evidence, mentioned twice, comes out in doubt |
| FrameStates.ResolveCurrentStates | src/atlas/MemoryFrameProjector.ts:423-445 | each claimed subject gets the evidence order no other claim of it is later than, by time and then by global sequence, with exactly the states and frames claimed at it |
| FrameStates.DecidedIsNewest | src/atlas/MemoryFrameProjector.ts:435-442 | a decided state is one that a claim names than which no claim of the subject is later in time, or as late with a higher sequence number |
| FrameStates.DecisionIsUnique | src/atlas/MemoryFrameProjector.ts:423-445 | the decisions depend only on the set of claims |
| StateEdges.StateProjector.ReduceEdge | src/binding/MemoryEdgeMerge.ts:207-274 | the edge becomes the reduction of its active supports, or goes when it has none |
| StateEdges.StateProjector.MergeEdge | src/binding/MemoryEdgeMerge.ts:107-181 | the frame's support is replaced and every other edge stays right |
| StateEdges.StateProjector.CollectEdges | src/atlas/MemoryFrameProjector.ts:86-139 | a frame says its open relations and its current transitions |
| StateEdges.StateProjector.Rebuild | src/atlas/MemoryFrameProjector.ts:45-162 | stale supports are invalidated, frames projected under the decisions, and every edge is reduced from what came back |
| StateEdges.EdgeFromDecision | src/atlas/MemoryFrameProjector.ts:120-139 | after a rebuild a HAS_STATE edge no relation states is there exactly when a claim than which no claim of the subject is newer names its state, and in doubt exactly when such claims name several states |
| StateEdges.EdgeSumsUp | src/binding/MemoryEdgeMerge.ts:207-250 | an edge is there as long as a support is active, valid from the last point where a support's range begins after all earlier ones are over up to where those since then end, and in doubt exactly if a support is or there was a gap |
| StateEdges.EdgeIsThereIff | src/atlas/MemoryFrameProjector.ts:86-139 | any HAS_STATE edge is there after a rebuild exactly if a frame states it as an open relation or one of its transitions to a newest state brings it |
| StateEdges.OneCurrentState | src/atlas/MemoryFrameProjector.ts:57-61 | no subject is shown in two states without doubt, unless a frame states one as a relation of its own |
| EpisodeRelations.NormalizedHintsAre | src/atlas/GraphCurator.ts:562-579 | the normalised hints are exactly the non-empty normal forms |
| EpisodeRelations.BucketByHint | src/atlas/GraphCurator.ts:562-579 | each hint's bucket lists exactly its carriers, once each, in input order |
| EpisodeRelations.ProjectEpisodeRelations | src/atlas/GraphCurator.ts:375-411 | the written rows are exactly one SAME_ISSUE and one FOLLOWS_UP for each pair of consecutive carriers of an issue hint, and one RELATED_TO for each pair consecutive under a topic hint without a common raw issue hint |
| EpisodeRelations.FollowsUpReachesBack | src/atlas/GraphCurator.ts:378-395 | from the later to the earlier of any two episodes sharing an issue there is a FOLLOWS_UP path, despite deduplication |
| EpisodeRelations.FollowsUpIsAcyclic | src/atlas/GraphCurator.ts:389-393 | FOLLOWS_UP runs strictly back in time |
| EpisodeRelations.SameComponents | src/atlas/GraphCurator.ts:375-395 | the SAME_ISSUE chains have exactly the connected components of sharing a normalised issue hint |
| FacetCuration.FirstTargetWins | src/atlas/GraphCurator.ts:291-330 | the support of a facet is that of the first target that names it |
| FacetCuration.FacetsAre | src/atlas/GraphCurator.ts:228-280 | an eligible episode's edges are exactly those of the type, id and relation of some target, with the confidence of the first such target, its start, and its first thirty pieces of evidence |
| FacetCuration.BoundedTakesFirst | src/atlas/GraphCurator.ts:192 | a batch is what a first part of the list names: all of it below a hundred episodes, else a hundred |
| FacetCuration.GraphCurator.ProjectEpisode | src/atlas/GraphCurator.ts:217-284 | one row's facet edges are upserted and no other edge changes |
| FacetCuration.GraphCurator.Rebuild | src/atlas/GraphCurator.ts:88-184 | a full rebuild projects every eligible row into an empty table and adds the relations |
| FacetCuration.GraphCurator.RebuildEpisodes | src/atlas/GraphCurator.ts:191-215 | an incremental rebuild drops every edge touching at most 100 distinct ids and projects those rows again |
| FacetCuration.IncrementalMatchesFull | src/atlas/GraphCurator.ts:191-215 | incremental and full curation leave the same facet edges exactly when the edges outside the batch were up to date |
| FacetCuration.IncrementalDropsRelations | src/atlas/GraphCurator.ts:454-467 | the incremental path keeps an episode-to-episode relation exactly when neither end is in the batch |
| FacetCuration.RelationOfBatchIsLost | src/atlas/GraphCurator.ts:454-467 | two related episodes, one of them curated again, are no longer related |
| FacetCuration.RunStaysFresh | src/atlas/GraphCurator.ts:88-215 | over any run of edits, full and incremental curations, the facet edges of every episode not edited since its last curation are those a projection would write now |
| FacetCuration.DueIff | src/atlas/GraphCurator.ts:191-215 | an episode counts as not curated since exactly if some edit of it is followed by no full curation and no batch that names it among its first hundred |
| FacetCuration.CaughtUpMatchesFull | src/atlas/GraphCurator.ts:191-215 | once every edited episode has been in a batch, of which the first 100 distinct ids count, the facet edges are those of a full curation |
| BeliefGovernance.BeliefGovernanceService.GetCurrent | src/belief/BeliefGovernanceService.ts:134-142 | finds an active belief under the normalised key with the latest update, or says there is none |
| BeliefGovernance.BeliefGovernanceService.InsertEvidence | src/belief/BeliefGovernanceService.ts:167-173 | adds one row for each new piece of evidence and overwrites none |
| BeliefGovernance.BeliefGovernanceService.ReinforceBelief | src/belief/BeliefGovernanceService.ts:153-165 | raises confidence and version and records both, or changes nothing |
| BeliefGovernance.BeliefGovernanceService.Apply | src/belief/BeliefGovernanceService.ts:59-127 | refuses, reinforces, or inserts with the whole new state of all four tables, against some current belief |
| BeliefGovernance.AcceptedEvidence | src/belief/BeliefGovernanceService.ts:65-72 | a call that is not refused names evidence, all of it known and of its project, the unnamed project having the events of none, and a user's belief has a user's word |
| GovernedOutcomes.RefusedAs | src/belief/BeliefGovernanceService.ts:59-72 | which refusal a call meets, in order: empty key or statement, no evidence, unknown evidence, evidence of another project, no user's word |
| GovernedOutcomes.StrengthenedBelief | src/belief/BeliefGovernanceService.ts:153-165 | saying the same again, or reinforcing, leaves statement, place and status, and raises the larger of stored and given confidence by 0.03 up to 1, with a version row and evidence |
| GovernedOutcomes.FirstBelief | src/belief/BeliefGovernanceService.ts:78-127 | the first belief under a key is active, with the given confidence or 0.86 for a user's and 0.72 for any other, its version row and evidence |
| GovernedOutcomes.CorrectedBelief | src/belief/BeliefGovernanceService.ts:86-117 | a correction is active and linked both ways to the belief it ends now, with a resolved conflict |
| GovernedOutcomes.DisputedBelief | src/belief/BeliefGovernanceService.ts:78-127 | anything else under an occupied key waits as a possible conflict with a pending conflict row, and the current belief stays as it was |
| BeliefHistory.AppliedKeepsSound | src/belief/BeliefGovernanceService.ts:59-127 | every call keeps chains, versions, evidence and conflicts sound |
| BeliefHistory.RunKeepsSound | src/belief/BeliefGovernanceService.ts:59-165 | every run does |
| BeliefHistory.ExactlyOneActive | src/belief/BeliefGovernanceService.ts:81-95 | a project and key with any belief has exactly one active one |
| BeliefHistory.CurrentEndsChain | src/belief/BeliefGovernanceService.ts:88-105 | the superseded beliefs form one chain with inverse links that ends at the active one |
| BeliefHistory.RunRemembers | src/belief/BeliefGovernanceService.ts:88-127 | statements, starts and version rows are never rewritten |
| BeliefHistory.ValidityTilesTime | src/belief/BeliefGovernanceService.ts:90-105 | with times that do not go back, exactly one belief of the chain is valid at each time since its start |
| BeliefHistory.WithEvidenceRows | src/belief/BeliefGovernanceService.ts:167-173 | a stored row is kept and a missing one comes from the first piece of evidence that names it |
| BeliefRaces.RunKeeps | src/belief/BeliefGovernanceService.ts:59-165 | reads and transactions of any number of callers, interleaved in any way, keep the chains of projects, the version rows and what was read |
| BeliefRaces.RacesLeaveOneActive | src/belief/BeliefGovernanceService.ts:75-127 | however calls race, a key of a project with any belief has one active belief, which ends the chain of the superseded ones |
| BeliefRaces.RacesKeepVersions | src/belief/BeliefGovernanceService.ts:153-181 | however calls race, the version rows of every belief are exactly 1..version |
| BeliefRaces.GoesThroughIff | src/belief/BeliefGovernanceService.ts:86-127 | a transaction goes through exactly when what was read still holds: nobody reinforced the belief meanwhile, the corrected belief is still active, or there is still no belief; otherwise it changes nothing |
| BeliefRaces.AtOnceIsApplied | src/belief/BeliefGovernanceService.ts:59-127 | without a race the two steps are the one step of the service |
| BeliefForks.KeepsChainIff | src/belief/BeliefGovernanceService.ts:86-105 | outside a project a transaction with fresh ids keeps the chain of its key exactly when it is in time, and forks the key exactly when it is not |
| BeliefForks.ChainedIffInTime | src/belief/BeliefGovernanceService.ts:59-165 | over every run, with or without a project, the beliefs under a key form one chain ending at the only active one exactly when every transaction under it that went through was in time, and else the key stays forked; in a project all are in time |
| BeliefForks.ProjectlessCorrectionsFork | src/belief/BeliefGovernanceService.ts:86-105 | a run in which two corrections of one belief outside a project both stay active |
| BeliefForks.ReinforcedIsActiveIff | src/belief/BeliefGovernanceService.ts:153-165 | a reinforcement that goes through returns an active belief exactly when the one it read is still active |
| BeliefForks.SupersededIsReinforced | src/belief/BeliefGovernanceService.ts:157-159 | a run in a project whose reinforcement goes through on a superseded belief |
| RacedRecords.RacesKeepRecords | src/belief/BeliefGovernanceService.ts:59-173 | however calls race, every evidence row names a known event of its belief's project, a user's belief has a user's word, every belief set aside has a pending conflict, and in a project every resolved conflict records a supersession |
| RacedRecords.RacesRemember | src/belief/BeliefGovernanceService.ts:88-181 | however calls race, statements, starts and version rows are never rewritten |
| RacedRecords.RacesTileTime | src/belief/BeliefGovernanceService.ts:90-105 | however calls race, with times that do not go back exactly one belief of a chain is valid at each time since its start |
| BeliefStrength.StrengthIsAMean | src/belief/BeliefStore.ts:680-740 | a strength lies between zero and one because the four weights of every row are shares of one |
| BeliefStrength.NoWeaker | src/belief/BeliefStore.ts:680-726 | of two claims of a kind, the younger, no less confident and no less trusted one is no weaker |
| BeliefStrength.NewerPreferencePrevails | src/belief/BeliefStore.ts:643-678 | a strictly newer preference from the same kind of source, no weaker in confidence and trust, wins the comparison |
| BeliefStrength.StrengthInPercent | src/belief/BeliefStore.ts:680-740 | a strength is the weighted percentages of confidence, own and source trust, freshness by days and half-life, and scope |
| BeliefStrength.MarginDecides | src/belief/BeliefStore.ts:643-678 | the incoming claim wins exactly if it is at least 0.12 stronger, or a newer preference or decision of the same kind of source less than 0.05 weaker; the existing one exactly if it is at least 0.12 stronger |
| BeliefStrength.NoBetterNeverWins | src/belief/BeliefStore.ts:643-678 | a claim no newer, no more confident and no more trusted than one of its kind never wins against it |
| BeliefStore.Weigh | src/belief/BeliefStore.ts:570-588 | one pass counts restatements, defenders and narrower rows and lists the beaten ones |
| BeliefStore.ResolveConflict | src/belief/BeliefStore.ts:547-641 | the counters decide what the live rows as a whole say: insert, supersede, coexist or reject; `BeliefVerdicts` says what that means in strengths |
| BeliefStore.FindByCanonicalKey | src/belief/BeliefStore.ts:108-117 | lists exactly the rows of the project under the key |
| BeliefStore.FindActiveEquivalent | src/belief/BeliefStore.ts:819-823 | lists exactly the active rows that already carry the claim |
| BeliefStore.BeliefStore.Upsert | src/belief/BeliefStore.ts:392-517 | the new table is the decision's: nothing when rejected or refused, otherwise one new row and the beaten rows retired |
| BeliefVerdicts.RecordsTheCandidate | src/belief/BeliefStore.ts:449-497 | the new row has the candidate's claim, value and key, with the source's trust and the present where it leaves them open |
| BeliefVerdicts.RetiredWereBeaten | src/belief/BeliefStore.ts:439-448 | a retired row was live, said something else under the candidate's key, and lost against it by the thresholds |
| BeliefVerdicts.NoBetterRetiresNothing | src/belief/BeliefStore.ts:622-677 | a candidate no newer, no more confident and no more trusted than each contradicting live row of its source retires no row |
| BeliefVerdicts.ClearlyStrongerSupersedes | src/belief/BeliefStore.ts:590-621 | one at least 0.12 stronger than every live row, all of them contradicting, supersedes them all unless it is too broad |
| BeliefVerdicts.ClearlyWeakerIsTurnedAway | src/belief/BeliefStore.ts:622-627 | one at least 0.12 weaker than every live row, all of them contradicting, is turned away |
| BeliefVerdicts.RestatementIsRecordedIff | src/belief/BeliefStore.ts:570-580 | which restatements are recorded beside what is there |
| BeliefVerdicts.SupersedesIff | src/belief/BeliefStore.ts:590-641 | when a candidate supersedes, in margins over the live rows |
| BeliefVerdicts.TooBroadIff | src/belief/BeliefStore.ts:600-612 | when a winner is held back because a row it beats has a narrower scope |
| BeliefRevision.UpsertClearsIff | src/belief/BeliefStore.ts:392-497 | after an upsert no live row under the key holds another value exactly when every live row with another value lost the comparison |
| BeliefRevision.NewestPreferenceWins | src/belief/BeliefStore.ts:643-674 | the newest preference leaves no live row with another value, and every contradicted row points to it and ends where it begins |
| BeliefRevision.NamesTheNewest | src/belief/BeliefStore.ts:108-117 | of the rows it supersedes a new row names the newest |
| BeliefRevision.HistoryIsKept | src/belief/BeliefStore.ts:439-448 | a row is left as it was or retired once, never removed |
| BeliefRevision.RunStaysLinked | src/belief/BeliefStore.ts:439-483 | in every run superseded rows and successors point to each other, under one key, with different values |
| BeliefRevision.SuccessionEnds | src/belief/BeliefStore.ts:439-448 | following successors from any row ends at a row of the same claim that nothing supersedes |
| FrameRelationBeliefs.ProjectFrameRelations | src/belief/FrameRelationBeliefs.ts:61-132 | a pass leaves the table of its relations taken one by one, and reports what was written, skipped with its reason, and failed |
| RelationReadings.LeftAloneIff | src/belief/FrameRelationBeliefs.ts:70-85 | a relation is skipped as not projected, then for a missing node, then for an empty label, and taken exactly otherwise |
| RelationReadings.TakenAsItReads | src/belief/FrameRelationBeliefs.ts:92-109 | the claim carries the labels of its nodes, the last of each id, and the relation's confidence as a model's inference in project scope; a liking is a one-valued preference, the others are told apart by their object |
| RelationReadings.DatedByEvidence | src/belief/FrameRelationBeliefs.ts:91-104 | it is dated by its stated start, else by its evidence, else by the frame's, and by the clock only if that event is unknown |
| RelationReadings.ReplayKeepsDate | src/belief/FrameRelationBeliefs.ts:102-104 | a claim something dates reads the same at any later clock |
| FrameRelationBeliefs.ClaimSettles | src/belief/FrameRelationBeliefs.ts:112-128 | once tried, a claim is recorded, refused or rejected, so that trying it again changes nothing |
| FrameRelationBeliefs.PassRestsIff | src/belief/FrameRelationBeliefs.ts:61-132 | a pass over any table changes nothing exactly when every claim is recorded, refused or rejected there |
| FrameRelationBeliefs.UncontestedIsDealt | src/belief/FrameRelationBeliefs.ts:107-128 | a pass leaves every claim no other claim of the frame contradicts recorded, refused or rejected |
| FrameRelationBeliefs.SecondPassRestsIff | src/belief/FrameRelationBeliefs.ts:54-132 | a second pass at the same clock changes nothing exactly when the first has left each claim that another of the frame contradicts recorded, refused or rejected |
| FrameRelationBeliefs.ClashIsTwoLikings | src/belief/FrameRelationBeliefs.ts:70-105 | two relations of a frame contradict each other exactly when both are likings of one subject with different things liked |
| FrameRelationBeliefs.FickleFrameIsWrittenAgain | src/belief/FrameRelationBeliefs.ts:112-125 | a frame with two likings of one subject, the older first, whose second pass adds a row |
| FrameRelationBeliefs.ContestedFrameCanRest | src/belief/FrameRelationBeliefs.ts:112-125 | the same two likings in the other order, whose second pass changes nothing |
| EpisodeTurns.LogicalTurnsFromPairs | src/episode/EpisodeBoundaryReplayEngine.ts:219-240 | the loop with its key and user flags computes the greedy grouping |
| EpisodeTurns.TurnsKeepPairs | src/episode/EpisodeBoundaryReplayEngine.ts:219-240 | turns lose nothing and keep the order |
| EpisodeTurns.TurnsAreCoherent | src/episode/EpisodeBoundaryReplayEngine.ts:226-237 | within a turn all named keys agree and at most one event comes from the user |
| EpisodeTurns.TurnsAreSeparate | src/episode/EpisodeBoundaryReplayEngine.ts:226-232 | a turn ends only where the next event cannot belong to it |
| EpisodeTurns.TurnMatesAgree | src/episode/EpisodeBoundaryReplayEngine.ts:299-303 | no two events of a turn name different turns, by id or else by number, and no two come from the user |
| EpisodeTurns.TurnsPartFor | src/episode/EpisodeBoundaryReplayEngine.ts:226-228 | a turn's first event names another turn than an event of the one before, or both come from the user |
| EpisodeRepair.ValidateSplit | src/factory.ts:3700-3736 | the check finds the first condition a split request fails, and none exactly when all hold |
| EpisodeRepair.ShapeRefusedAs | src/factory.ts:3701-3716 | which of the first complaints a request meets: no ids, one twice, one of another episode, the whole episode, an event left out between two selected |
| EpisodeRepair.CutRefusedAs | src/factory.ts:3717-3735 | and of the others: a turn on both sides, a parent and child on both sides, no whole turn with a user's words that leaves |
| EpisodeRepair.NoHoles | src/factory.ts:3711-3716 | the index arithmetic holds exactly when the selection is one stretch of the episode |
| EpisodeRepair.ChainsStayWhole | src/factory.ts:3723-3732 | no chain of parent and child links of any length crosses an accepted cut |
| EpisodeRepair.TurnsStayWhole | src/factory.ts:3717-3722 | no logical turn does |
| EpisodeRepair.BothPartsStand | src/factory.ts:3708-3735 | something stays behind, and a user's words leave |
| EpisodeMoves.EpisodeStore.MoveEventForRepair | src/episode/EpisodeStore.ts:406-428 | the event's link is rewritten, both lists are in canonical order, an emptied source is deleted, nothing else changes |
| EpisodeMoves.EpisodeStore.MoveEvent | src/factory.ts:3737-3746 | a move is refused for the stated reason or done, and every event keeps one home |
| EpisodeMoves.EpisodeStore.Split | src/factory.ts:2390-2410 | a split is refused for the stated reason or moves exactly the selected events to one new episode |
| EpisodeMoves.EpisodeStore.Merge | src/factory.ts:2411-2417 | a merge is refused for the stated reason or moves exactly the source's events, whose episode is then gone, and leaves every other episode as it was |
| EpisodeMoves.MoveKeepsConsistent | src/episode/EpisodeStore.ts:418-426 | a move keeps links and episode lists in agreement without duplicates |
| EpisodeMoves.ExactlyOneEpisode | src/episode/EpisodeStore.ts:418-426 | a linked event is in exactly one episode at exactly one place |
| EpisodeMoves.ResequencedInOrder | src/episode/EpisodeStore.ts:1266-1282 | resequencing sorts by turn, ordinal, global sequence and time, with missing values last, and leaves ties in the order they had |
| EpisodeMoves.WithoutIsRest | src/episode/EpisodeStore.ts:418-426 | the events that stay keep the order they had |
| NamedTurns.AgentMemoryBackend.ClaimAgentTurn | src/factory.ts:1593-1606 | the claim is new, a replay with the recorded ids, or a conflict, by what the ledger holds |
| NamedTurns.AgentMemoryBackend.RememberTurn | src/agent/AgentMemoryBackend.ts:394-498 | the whole new ledger and turn counters, and the answer |
| NamedRecords.ClaimedAs | src/factory.ts:1593-1606 | new, replay or conflict by whether the events under the turn's ids have its texts, turn and session |
| NamedRecords.RecordedAsSaid | src/agent/AgentMemoryBackend.ts:394-498 | a recorded turn adds exactly the user's event and the reply it leads to, as said and redacted, in the named thread or else the session's, under one number |
| NamedRecords.DrawnNumberIsNew | src/store/EventStore.ts:434-504 | over every run, a turn that leaves its number to the store gets a larger one than any event of its thread has |
| NamedTurns.OneEventPerSpeaker | src/factory.ts:3937-3941 | over every run a turn identity owns at most one user and one assistant event |
| NamedTurns.LaterCallIsSettled | src/agent/AgentMemoryBackend.ts:399-420 | after a completed write, whatever happens in between, a call under the same identity changes neither ledger nor counters: a replay with the recorded ids when its texts repeat, a conflict exactly when they do not |
| NamedTurns.HalfWrittenTurnIsStuck | src/factory.ts:1599-1603 | after a lost reply, whatever happens in between, a call under the identity is a duplicate when it repeats the user's words without a reply, and a conflict in every other case, the word-for-word retry included |
| NamedTurns.FaultDecidesRetry | src/agent/AgentMemoryBackend.ts:394-498 | the first call fails exactly when the user event or a reply was lost; however many calls under other identities follow, the word-for-word retry writes the turn exactly after a lost user event, which left the ledger unchanged, and is a conflict exactly after a lost reply |
| FileLoaders.SplitParagraphBlocks | src/assets/FileLoaders.ts:43-71 | the blocks are exactly the maximal runs of non-blank lines in order, with their line numbers, or the one block of a text without any |
| FileLoaders.Flush | src/assets/FileLoaders.ts:47-58 | closing a paragraph adds its block exactly when something was collected |
| LineRuns.NoRuns | src/assets/FileLoaders.ts:70 | there is no run exactly when no line is marked |
| FileChunker.Pack | src/assets/FileChunker.ts:7-41 | the drafts tile the blocks in order, each ending at the first place it may |
| FileChunker.Chunk | src/assets/FileChunker.ts:7-43 | the chunks are the visible drafts of such a tiling |
| FileChunker.SpanIsTight | src/assets/FileChunker.ts:32-40 | a table or code block stands alone, and a chunk without its last block is below the target |
| FileChunker.ExactlyOneSpan | src/assets/FileChunker.ts:32-41 | every block is in exactly one span |
| FileChunker.SpanEndsForReason | src/assets/FileChunker.ts:32-40 | a chunk that is not the last has reached the target, or is or precedes a table or code |
| ChunkContents.EstimateIsCount | src/assets/FileChunker.ts:49-53 | a text is taken to have as many tokens as ideographs and maximal runs of word characters, and at least one |
| ChunkContents.UsualChunk | src/assets/FileChunker.ts:5 | without a size asked for, the target is 420 |
| ChunkContents.KindOfFirst | src/assets/FileChunker.ts:13-19 | a chunk's kind, sought by table, then code, then the first block, is always that of its first block |
| ChunkContents.TextInOrder | src/assets/FileChunker.ts:21 | a chunk's text is the texts of its blocks in order with an empty line between |
| ChunkContents.MetaReachesFromFirstToLast | src/assets/FileChunker.ts:55-69 | its metadata begins as the first block's and ends as the last one's |
| Texts.TrimCuts | src/assets/FileLoaders.ts:47-50 | trimming takes space from either end, and all of it |
| Texts.JoinInParts | src/assets/FileLoaders.ts:47-50 | joining in two parts puts the separator between them too |
| ChunkedLines.ParagraphChunksAreKept | src/assets/FileChunker.ts:42 | chunks of paragraphs are never dropped as blank |
| ChunkedLines.EveryLineInOneChunk | src/assets/FileChunker.ts:55-69 | every non-blank line of a text lies in the line range of exactly one chunk |

## Left out

- Optimality and completeness of the path search over walks through a cut node: the code keeps one best cost for each
  node and does not promise them.
- Two workers that restage one generation at once: not excluded by the code, so excluded by assumption, with the
  counterexample above.
- Time projection: cognitive nodes and edges, topology membership, neuron counts and other return values, labels and
  ends of buckets.
- Path query: id canonicalisation, the row limits of the edge lists (an input) and the stripping of evidence from
  returned edges.
- Frame projection: looking up how new a transition's evidence is (an input), label, summary, confidence and evidence
  of documents, aliases, the rebuild of canonical documents and edges other than HAS_STATE.
- StateEdges.StateProjector.ReduceEdge: supports by other authorities than the projector, stability and the weight
  fields are left out, because only the projector decides which state is current.
- StateEdges.StateProjector.MergeEdge: models the projector's replace operation on HAS_STATE edges alone.
- SnapshotFolds.NodesIgnoreOrderAndRepeats: the alias snapshots, which are folded the same way, have no lemma of their own.
- Graph curation: titles, raw-event nodes, texts and the writing of nodes; the redundancy test of topic relations
  uses raw hints, as the code does, although the buckets use normalised ones.
- FacetCuration.GraphCurator.Rebuild: the episode-to-episode relations are an input; `EpisodeRelations` computes them.
- BeliefStore.BeliefStore.Upsert: reads its conflicts and writes in one step, although the source reads before its
  transaction; there is no unique index here for a race to run into.
- Belief store: evidence rows, events, metadata and explanations; a failing transaction is an input. Rows with equal
  validity and creation times are listed in one fixed order although the query leaves it open.
- BeliefGovernance.BeliefGovernanceService.Apply: reads the current belief and writes in one step; `BeliefRaces` splits
  the two and shows when they are the same.
- BeliefRaces.RunKeeps: follows the beliefs and their versions; the other records are followed in `RacedRecords`, and keys
  without a project in `BeliefForks`.
- BeliefRaces.RacesLeaveOneActive: speaks of keys of a project, because it is false of others; `BeliefForks` says when.
- Governance: reading history back.
- Episode repair: reclassification, dream jobs, statuses after resealing, frames and candidates it invalidates, and
  the failure of a position update.
- Named turns: other writers between the claim and the first write; binding, episode assembly and compilation.
- File chunking: splitting a text at line ends, and loaders other than plain text; a chunk's text, kind and
  metadata are functions of its blocks rather than stored fields.
- SQL text, indexes, full-text tables, JSON encoding, encryption and clocks.
