# PECO: verified models of its stateful cores

This project models the parts of PECO that keep state or whose results depend on how several functions
work together, and proves what they promise. Each module follows one source file.

| module | what it is |
|---|---|
| `BlobState`, `BlobInvariants`, `BlobCompletions`, `BlobRuns`, `BlobRequests`, `BlobEffects`, `BlobCache` | the web client's artifact blob cache: object URLs, reference counts, a priority queue before at most three requests, LRU eviction, and requests that end after everything was released. A state machine over single turns of the event loop, what every turn keeps, and the object whose methods are these turns |
| `Clustering` | union-find clustering: path compression without union by rank, against chains of similar pairs |
| `GraphStore` | depth-bounded breadth-first search: balls, shortest paths, expansion |
| `RotatingLog`, `LogWriter` | the size-rotating log writer over a directory in which any step may fail |
| `ChunkIds`, `WindowChunker`, `MarkdownBlocks`, `MarkdownGroups`, `MarkdownPacking`, `MarkdownChunker` | chunk ids and two chunkers |
| `KnowledgeIndex`, `KnowledgeSteps`, `Ingestion` | ingesting and deleting documents over the in-memory stores |
| `SseParser` | the incremental parser of server-sent events |
| `ArtifactLines` | injecting artifact declarations into tool output and stripping them |
| `ArtifactStore`, `ArtifactEffects`, `PecoArtifactStore` | the artifact list with late answers of earlier users |
| `BlockAssembly` | folding a model's stream into blocks and a status |
| `SessionGrouping` | merging the items of a turn into messages |
| `Fusion` | reciprocal rank fusion over exact reals |

`dafny verify dfyconfig.toml` checks all of it.

Code that changes things step by step is a method with its loops, proved against a function or a relation
that says what it computes; the lemmas are about that function. Network answers, failures and clocks are
arguments; hashing, tokenizing, white space, JSON and the similarity test are parameters, with the laws the
proofs need written as preconditions (`Lawful`, `GoodConfig`).

## What the proofs turned up

- An artifact of more than 64 MB (the download limit is 200 MB) that nobody retains when its download ends is
  delivered and revoked in the same turn: eviction runs before the caller can retain it
  (`OversizeDownloadIsRevoked`, `OversizeDownloadIsReachable`). `DeliveredUrlSurvives` says exactly when a
  delivered URL is still valid.
- The window chunker drops a short tail that its comment calls absorbed. It loses nothing exactly when
  overlap + 1 >= size/4 (`CoversAllTextsIff`).
- A log file beyond the configured number that cannot be removed stays while newer files go: reading all files
  then misses the middle. `RotationReadsSuffixIff` gives the exact condition, in terms of which bytes of the log
  are left, `StaleFileLeavesHole` an instance.
  The files within the configured number always read as a suffix, whatever fails.
- Re-ingesting a document whose new version cannot be embedded loses the old version, which is deleted first
  (`FailedEmbeddingLosesTheDocument`).
- Within one batch of announced artifacts that names an id twice, the earlier entry's content wins
  (`FirstVersionWins`).
- Error and failed status agree on every stream with at most one finish, which is what the provider adapters
  send (`OneFinishAgrees`). On streams with several they disagree exactly when the last abnormal finish is a
  `MaxTokens` behind a failure (`ErrorAgreesIff`).
- Fusing a single list keeps a prefix of it exactly when k is above -1 (`AlwaysPrefixIff`).
- The Markdown chunker's check for blank groups can never fire (`NoGroupIsBlank`), and its grouping keeps the
  order of blocks only because no parsed block is empty (`EmptyBlockIsOvertaken`; `ParsedBlocksHaveInk` shows
  that none is).

## Model

| member | source | states |
|---|---|---|
| `BlobRuns.NextKeepsInv` | webui/src/api/artifactBlob.ts:82-395 | every turn of the event loop (get, retain, release, release all, a blob arriving, a request succeeding or failing) keeps the whole invariant: URL ownership, tasks, promises, order, bound |
| `BlobRuns.RunKeepsInv` | webui/src/api/artifactBlob.ts:82-395 | the invariant holds after any sequence of turns |
| `BlobRuns.LiveUrlsAreReadyEntries` | webui/src/api/artifactBlob.ts:107-142 | once no response waits for its continuation, the created and not revoked URLs are exactly those of the ready cached entries; no URL is ever revoked twice |
| `BlobRuns.CacheIsBounded` | webui/src/api/artifactBlob.ts:123-142 | at the end of every turn of every run the cache is within 40 entries and 64 MB, or every ready entry is held |
| `BlobRuns.SchedulingHolds` | webui/src/api/artifactBlob.ts:144-171 | in every run: slots in use = requests in flight <= 3; a waiting task implies all three slots are taken (no lost wakeup); user tasks stand before prefetch tasks |
| `BlobRuns.LoadingEntriesHaveOneTask` | webui/src/api/artifactBlob.ts:288-305 | in every run a cached entry is loading iff it has a task, queued or in flight, and then it has exactly one (single flight) |
| `BlobRuns.PromisesSettleOnce` | webui/src/api/artifactBlob.ts:250-305 | in every run a promise is settled exactly once, namely when its task has left both queue and flight |
| `BlobRequests.TurnDecides` | webui/src/api/artifactBlob.ts:156-171 | after any events, in any turn but clearing: a waiting task that reaches a free slot is started if its artifact is held or a user has asked for it since its entry was inserted, and its promise is aborted if not; every other waiting task goes on waiting |
| `BlobRequests.TurnTakesFromTheFront` | webui/src/api/artifactBlob.ts:156-171 | those that go on waiting are the last ones of the queue, in order |
| `BlobRequests.PumpDecides` | webui/src/api/artifactBlob.ts:156-171 | the same for one run of the pump over any state between the steps of a turn |
| `BlobRequests.MarkMeansAsked` | webui/src/api/artifactBlob.ts:339-367 | in every run an entry is marked as a user's iff a user has asked for it since it was inserted |
| `BlobRequests.EntryInTurn` | webui/src/api/artifactBlob.ts:250-374 | every field of an entry that outlives a turn: what a get, a retain, a response and a failure change, the time of last use included, and that nothing else changes |
| `BlobEffects.PromisesAreShared` | webui/src/api/artifactBlob.ts:339-367 | a new promise is handed out iff there is no entry or the entry has none |
| `BlobEffects.SuccessIsReported` | webui/src/api/artifactBlob.ts:250-286 | callers get the URL of the response, or an abort if the entry is another one by now |
| `BlobEffects.FailureIsReported` | webui/src/api/artifactBlob.ts:250-286 | callers get the failure |
| `BlobEffects.ArrivalRecordsBlob` | webui/src/api/artifactBlob.ts:203-232 | a response gets a new URL with its size, and nothing else changes yet |
| `BlobEffects.ClearingAbortsQueue` | webui/src/api/artifactBlob.ts:388-395 | clearing aborts every promise that waits in the queue, once, and leaves requests in flight and their slots |
| `BlobEffects.HoldersInTurn` | webui/src/api/artifactBlob.ts:370-385 | holders are counted by retains and releases alone, never below zero, and forgotten when everything is released |
| `BlobEffects.EvictionOrder` | webui/src/api/artifactBlob.ts:113-142 | within 40 entries and 64 MB nothing is evicted; else only ready entries that nobody holds, least recently used first, until within the bounds or none is left |
| `BlobRuns.EvictExactly` | webui/src/api/artifactBlob.ts:113-142 | which entries eviction keeps, both ways: those it may not touch, and those that fit once everything older that can go is gone |
| `BlobRuns.DeliveredUrlSurvives` | webui/src/api/artifactBlob.ts:250-286 | a URL just delivered is still valid after its own turn iff its artifact is held or fits beside everything not evictable before it |
| `BlobRuns.OversizeDownloadIsRevoked` | webui/src/api/artifactBlob.ts:250-286 | a download above 64 MB that nobody retains yet is resolved and revoked in the same turn |
| `BlobRuns.OversizeDownloadIsReachable` | webui/src/api/artifactBlob.ts:339-367 | a run that leads there, for every size between the cache bound and the 200 MB download limit |
| `BlobRuns.HeldUrlStays` | webui/src/api/artifactBlob.ts:370-385 | no event but releasing everything, or the last release of that very id, takes a ready URL away from whoever holds it |
| `BlobRuns.EarlierRequestsStayStale` | webui/src/api/artifactBlob.ts:388-395 | after `releaseAll`, whatever happens since, a request in flight before it is still the same request for the same entry or has landed, and is never taken for that of a cached entry again |
| `BlobRuns.NextKeepsFlight` | webui/src/api/artifactBlob.ts:156-171 | a request in flight keeps its task and its entry, and a ticket that has landed does not start again |
| `BlobRuns.StaleResponseIsDiscarded` | webui/src/api/artifactBlob.ts:250-286 | the answer to such a request leaves the cache alone, its URL is revoked, its promise is an abort |
| `BlobInvariants.EvictKeepsCore` | webui/src/api/artifactBlob.ts:123-142 | eviction keeps URL ownership and tasks and ends within the bound or with nothing left to evict |
| `BlobInvariants.PumpKeepsInv` | webui/src/api/artifactBlob.ts:156-171 | pumping restores "nobody waits while a slot is free" and settles each task it drops once |
| `BlobInvariants.GetKeepsInv` | webui/src/api/artifactBlob.ts:339-367 | a request for an artifact keeps the invariant, whether cached, loading, failed or new |
| `BlobInvariants.RetainKeepsInv` | webui/src/api/artifactBlob.ts:370-374 | retaining keeps the invariant, also for ids not cached |
| `BlobInvariants.ReleaseKeepsInv` | webui/src/api/artifactBlob.ts:377-385 | releasing keeps the invariant, whether or not anybody held the artifact |
| `BlobRuns.LastReleaseLetsGo` | webui/src/api/artifactBlob.ts:377-385 | after the last release a ready entry stays iff it fits beside what is not older; if it goes, its URL is revoked |
| `BlobCompletions.ReleaseAllKeepsInv` | webui/src/api/artifactBlob.ts:388-395 | dropping everything with requests in flight keeps the invariant: queued promises are settled, requests in flight keep their slots |
| `BlobCompletions.ArrivalKeepsInv` | webui/src/api/artifactBlob.ts:203-232 | the URL of a response that waits for its continuation has an owner |
| `BlobCompletions.OneTaskPerEntry` | webui/src/api/artifactBlob.ts:250-305 | the entry a request in flight loads is loaded by no other task |
| `BlobInvariants.EnqueueKeepsOrder` | webui/src/api/artifactBlob.ts:144-154 | a user task goes behind all user tasks and before all prefetch tasks that wait, a prefetch task to the end; those that wait keep their order |
| `BlobCache.ArtifactBlobCache.CacheBytes` | webui/src/api/artifactBlob.ts:96-100 | the loop adds up to the bytes of all entries |
| `BlobCache.ArtifactBlobCache.OldestEvictable` | webui/src/api/artifactBlob.ts:113-120 | the scan finds the least recently used ready entry nobody holds, or there is none |
| `BlobCache.ArtifactBlobCache.EvictEntries` | webui/src/api/artifactBlob.ts:123-142 | the loop in place does what `Evict` says, revoking each URL it drops |
| `BlobCache.ArtifactBlobCache.PumpQueue` | webui/src/api/artifactBlob.ts:156-171 | the loop in place does what `Pump` says: each waiting task that is offered a slot is started if its artifact is held or its entry was asked for by a user, else aborted; the others go on waiting |
| `BlobCache.ArtifactBlobCache.QueueRequest` | webui/src/api/artifactBlob.ts:144-154 | insertion into the queue at the place `Enqueued` says |
| `BlobCache.ArtifactBlobCache.StartLoad` | webui/src/api/artifactBlob.ts:288-305 | a new promise, a queued task and one pump |
| `BlobCache.ArtifactBlobCache.GetArtifactObjectUrl` | webui/src/api/artifactBlob.ts:339-367 | the new state, and whether the caller gets a valid URL, an existing promise or a new one |
| `BlobCache.ArtifactBlobCache.RetainArtifact` | webui/src/api/artifactBlob.ts:370-374 | one more reference, the entry touched |
| `BlobCache.ArtifactBlobCache.ReleaseArtifact` | webui/src/api/artifactBlob.ts:377-385 | one reference less, then eviction |
| `BlobCache.ArtifactBlobCache.ReleaseEverything` | webui/src/api/artifactBlob.ts:388-395 | every URL revoked once, cache, counts and queue emptied, queued promises aborted |
| `BlobCache.ArtifactBlobCache.RequestSucceeded` | webui/src/api/artifactBlob.ts:250-286 | the continuation of a successful request, stale or not |
| `BlobCache.ArtifactBlobCache.RequestFailed` | webui/src/api/artifactBlob.ts:250-286 | the continuation of a failed request: only an unavailable artifact keeps its rejected promise |
| `Clustering.Find` | crates/knowledge-base/src/engine/similarity.rs:34-50 | terminates, returns the root, leaves the forest and every root as they were, and hangs the element at its root |
| `Clustering.CompressKeepsForest` | crates/knowledge-base/src/engine/similarity.rs:43-48 | pointing an element at its root changes no root |
| `Clustering.UnionKeepsForest` | crates/knowledge-base/src/engine/similarity.rs:61-71 | hanging a root under another, whatever their sizes, leaves a forest; exactly the members of the hung tree get the other root |
| `Clustering.RootIsReached` | crates/knowledge-base/src/engine/similarity.rs:34-41 | the root an element is said to have is the one that following parents reaches |
| `Clustering.SameRootIffConnected` | crates/knowledge-base/src/engine/similarity.rs:61-71 | after all pairs: two indices share a root iff a chain of similar pairs joins them |
| `Clustering.MergePair` | crates/knowledge-base/src/engine/similarity.rs:61-71 | both finds and the union of one similar pair: the two trees, and no others, become one |
| `Clustering.MergeLinkedPairs` | crates/knowledge-base/src/engine/similarity.rs:55-71 | the double loop ends with a forest whose trees are the connected components |
| `Clustering.ConnectedComponentClusters` | crates/knowledge-base/src/engine/similarity.rs:55-92 | two indices are in one group iff a chain of similar pairs joins them; groups and members ascend; any sort of a group or of the groups is the identity |
| `Clustering.ClusteringIsPartition` | crates/knowledge-base/src/engine/similarity.rs:55-92 | no index is in two groups or twice in one |
| `Clustering.SortChangesNothing` | crates/knowledge-base/src/engine/similarity.rs:86-90 | with strictly ascending keys there is only one sorted permutation, so the final sorts change nothing |
| `GraphStore.MemoryGraphStore.Traverse` | crates/knowledge-base/src/backends/memory_graph.rs:105-170 | exactly the nodes within `max_depth` steps, each once, with true distances in non-decreasing order, each entered by a stored edge of the type it names; a step is along an edge that passes the filter, from source to target, back, or either way (`AdjacentIff`) |
| `GraphStore.AdjacentIff` | crates/knowledge-base/src/backends/memory_graph.rs:138-150 | one step from u to v, on the fields of the edges: an edge whose type passes the filter has source u and target v, or target u and source v, or either, as the direction says |
| `GraphStore.NeighborJoins` | crates/knowledge-base/src/backends/memory_graph.rs:143-149 | what the loop computes from an edge is the far end of such an edge |
| `GraphStore.IncomingReversesOutgoing` | crates/knowledge-base/src/backends/memory_graph.rs:143-149 | a walk along incoming edges is one along outgoing edges turned round |
| `GraphStore.MemoryGraphStore.VisitNeighbors` | crates/knowledge-base/src/backends/memory_graph.rs:105-170 | expanding one node finds all its neighbours and keeps the search invariant |
| `GraphStore.MemoryGraphStore.ShortestPath` | crates/knowledge-base/src/backends/memory_graph.rs:172-256 | a path is returned iff the target is within `max_depth` steps along allowed edges, either way; it is a shortest one, its k-th node at distance k, each step along a stored edge of its type |
| `GraphStore.MemoryGraphStore.RebuildPath` | crates/knowledge-base/src/backends/memory_graph.rs:172-256 | following the recorded parents terminates, never meets a missing record, and yields a shortest path |
| `GraphStore.MemoryGraphStore.RecordNeighbors` | crates/knowledge-base/src/backends/memory_graph.rs:172-256 | each new node is recorded with a parent one step nearer and the type of a stored edge between them |
| `GraphStore.MemoryGraphStore.Expand` | crates/knowledge-base/src/backends/memory_graph.rs:258-275 | the duplicate-free union, in order of first discovery, of the balls around the seeds |
| `GraphStore.PushBack` | crates/knowledge-base/src/backends/memory_graph.rs:105-170 | a node first seen from a node at distance d is at distance d + 1 exactly |
| `GraphStore.SearchComplete` | crates/knowledge-base/src/backends/memory_graph.rs:105-170 | when the frontier is empty, everything in reach has been visited |
| `GraphStore.KeepFirstIsUnion` | crates/knowledge-base/src/backends/memory_graph.rs:258-275 | keeping the first node of each id yields the union of the balls |
| `GraphStore.UndirectedIsSymmetric` | crates/knowledge-base/src/backends/memory_graph.rs:172-256 | in the undirected search reach is symmetric |
| `GraphStore.DistanceIsUnique` | crates/knowledge-base/src/backends/memory_graph.rs:105-170 | a node has one distance |
| `GraphStore.AddedEdgesOnlyShorten` | crates/knowledge-base/src/backends/memory_graph.rs:53-61 | edges added later close no walk: what was in reach stays in reach, and distances only shrink |
| `RotatingLog.WriteKeepsSuffix` | crates/peco-server/src/logging.rs:293-361 | one write, whichever removals, renames, reopen or append fail, leaves the kept files, oldest first, a suffix of the stream of accepted bytes |
| `RotatingLog.RunReadsSuffix` | crates/peco-server/src/logging.rs:293-361 | the same over whole runs, counting what was on disk at the start: never a gap in the middle, never out of order |
| `RotatingLog.WriteInCases` | crates/peco-server/src/logging.rs:293-361 | one write with any failures: the bytes accepted, the current file and the counter in each case; a writer gives up iff a rotation's renames all go through and the new file does not open |
| `RotatingLog.OpenInCases` | crates/peco-server/src/logging.rs:205-239 | opening with any failures: which files are left, the current file there, its length counted, or zero where it cannot be told |
| `RotatingLog.ShiftReads` | crates/peco-server/src/logging.rs:327-341 | the chain of renames, stopped anywhere, changes what the files read only by what it overwrites |
| `RotatingLog.RotateReads` | crates/peco-server/src/logging.rs:324-361 | a rotation drops at most the oldest kept file from what the files read |
| `RotatingLog.RotationReadsSuffixIff` | crates/peco-server/src/logging.rs:243-262 | with left-over files beyond the limit that cannot be removed, for every stream: a rotation leaves bytes of the log in order; they are its last ones without a gap iff nothing newer than such a file is lost, and then a suffix is read; with bytes that can be told apart, only then |
| `RotatingLog.RotationPicks` | crates/peco-server/src/logging.rs:324-361 | reading every file after a rotation gives exactly the bytes at the kept positions, in order |
| `RotatingLog.KeptIgnoresBytes` | crates/peco-server/src/logging.rs:324-361 | which positions are kept depends on which files there are and how long, not on their bytes |
| `RotatingLog.KeptIsTailIff` | crates/peco-server/src/logging.rs:243-262 | the kept positions have no gap iff nothing newer than a file that cannot be removed is lost |
| `RotatingLog.StaleFileLeavesHole` | crates/peco-server/src/logging.rs:243-262 | a directory where it is not: the middle of the log is gone |
| `RotatingLog.RotateMoves` | crates/peco-server/src/logging.rs:324-361 | without failures every file moves up one slot and the current one starts empty |
| `RotatingLog.WriteFollows` | crates/peco-server/src/logging.rs:293-361 | without failures one write does to the files what the rule "an event that would cross the limit starts a new file" says |
| `RotatingLog.NextSizesOk` | crates/peco-server/src/logging.rs:293-318 | a file begun by the writer is within the limit or holds exactly one event |
| `RotatingLog.FailureFreeRun` | crates/peco-server/src/logging.rs:205-361 | failure-free runs from any directory: the counter is the current length, slot j holds the segment closed j rotations ago, at most `max_files` files, sizes as above |
| `LogWriter.RotatingFileWriter.constructor` | crates/peco-server/src/logging.rs:205-239 | opening keeps the files within the limit and counts the current one, or zero if its length is unknown |
| `LogWriter.RotatingFileWriter.CleanStaleFiles` | crates/peco-server/src/logging.rs:243-262 | removes exactly the files at or above the limit that can be removed |
| `LogWriter.RotatingFileWriter.RotateFiles` | crates/peco-server/src/logging.rs:324-361 | the loop over renames does what `Rotate` says, with its three ways to give up |
| `LogWriter.RotatingFileWriter.WriteEvent` | crates/peco-server/src/logging.rs:293-318 | one event: the new state, and the stream grown by what was accepted |
| `LogWriter.CounterStaysBelow` | crates/peco-server/src/logging.rs:293-318 | the counter never exceeds the length of the current file, whatever fails |
| `ChunkIds.ChunkIdIsInjective` | crates/knowledge-base/src/chunking/strategies.rs:12-18 | two chunk ids are equal iff document, sequence number and hash are, dashes in document ids included |
| `ChunkIds.ChunkIdParts` | crates/knowledge-base/src/chunking/strategies.rs:12-18 | document, dash, at least four digits without needless zeros that read as the number, dash, hash |
| `ChunkIds.IdKindsAreDisjoint` | crates/knowledge-base/src/engine/ingestion.rs:100-162 | chunk ids, `__full` ids and `__title` ids never collide, whatever the documents are called |
| `ChunkIds.Pad4ReadsBack` | crates/knowledge-base/src/chunking/strategies.rs:12-18 | a sequence number can be read back from its four or more digits |
| `WindowChunker.WindowsAreOk` | crates/knowledge-base/src/chunking/strategies.rs:38-100 | windows are non-empty, at most size + 100 long, each ending where `EndsAt` says, starting exactly `overlap` before the previous one ends and ending later; left out is only a tail that would be one window below a quarter of the size |
| `WindowChunker.WindowsAreUnique` | crates/knowledge-base/src/chunking/strategies.rs:38-100 | no other sequence of windows has these properties |
| `WindowChunker.EndIsUnique` | crates/knowledge-base/src/chunking/strategies.rs:51-67 | the end of a window is fixed by its start and the characters |
| `WindowChunker.PiecesGlueBack` | crates/knowledge-base/src/chunking/strategies.rs:38-100 | dropping the overlaps and joining the pieces gives back the text up to the last end |
| `WindowChunker.ChunksGlueBack` | crates/knowledge-base/src/chunking/strategies.rs:38-100 | the chunks of a text, overlaps dropped, are all of it but a tail that is empty when overlap + 1 >= size/4 and at most size/4 - 1 - overlap characters else |
| `WindowChunker.TailIsBounded` | crates/knowledge-base/src/chunking/strategies.rs:38-100 | the uncovered tail is empty when overlap + 1 >= size/4, else at most size/4 - 1 - overlap characters |
| `WindowChunker.CoversAllTextsIff` | crates/knowledge-base/src/chunking/strategies.rs:38-100 | a configuration covers every text iff overlap + 1 >= size/4 |
| `WindowChunker.StubbornLosesTail` | crates/knowledge-base/src/chunking/strategies.rs:70-74 | a text whose tail is dropped, for every smaller overlap |
| `WindowChunker.AlignEndToSentence` | crates/knowledge-base/src/chunking/strategies.rs:109-126 | the end is just behind the first sentence end among the next 100 characters; else just behind the last one of the window; else where it was (`IsAligned`, on the seven characters) |
| `WindowChunker.WindowEnd` | crates/knowledge-base/src/chunking/strategies.rs:51-67 | the window ends at the aligned place, or unaligned where the next window would not begin later (`EndsAt`); the next window always starts later |
| `WindowChunker.ChunkText` | crates/knowledge-base/src/chunking/strategies.rs:38-100 | one chunk per window, with its text, number, place and id; the windows are the windowing of the text, each ending where a sentence does as above (`IsWindowing`) |
| `MarkdownBlocks.ParseIsUnique` | crates/knowledge-base/src/chunking/strategies.rs:329-377 | there is only one way to cut lines into blocks by the rules: right kind, as long as possible, only blank lines between |
| `MarkdownBlocks.BlocksAreUnique` | crates/knowledge-base/src/chunking/strategies.rs:329-377 | hence the blocks of a text are fixed by the rules |
| `MarkdownBlocks.NonBlankLinesAreKept` | crates/knowledge-base/src/chunking/strategies.rs:329-377 | every non-blank line is in exactly one block |
| `MarkdownBlocks.FencesAreWhole` | crates/knowledge-base/src/chunking/strategies.rs:337-348 | a code block ends with its first closing fence or with the text |
| `MarkdownBlocks.ParseBlocks` | crates/knowledge-base/src/chunking/strategies.rs:329-377 | the loop yields the blocks of that one parse: a heading is its line without white space at the end, any other block its lines, one newline between each two |
| `MarkdownBlocks.BlocksHoldTheirLines` | crates/knowledge-base/src/chunking/strategies.rs:329-377 | cutting a block that is not a heading at its newlines gives back exactly its lines; a heading is its one line without white space at the end |
| `MarkdownBlocks.JoinedIff` | crates/knowledge-base/src/chunking/strategies.rs:347-347 | there is one text that is given pieces with one newline between each two, by positions, and joining gives it |
| `MarkdownBlocks.CutUndoesJoin` | crates/knowledge-base/src/chunking/strategies.rs:347-347 | cutting at newlines undoes joining lines |
| `MarkdownBlocks.KindIff` | crates/knowledge-base/src/chunking/strategies.rs:300-327 | which kind of block a line starts, from its characters: three backticks or tildes, one to six # and a space or the end, a bar |
| `MarkdownBlocks.FenceLenIff` | crates/knowledge-base/src/chunking/strategies.rs:320-322 | the length of a fence is the number of fence characters behind the indent |
| `MarkdownBlocks.ClosesIff` | crates/knowledge-base/src/chunking/strategies.rs:341-344 | a line closes a fence iff it starts with the fence character at least three times and at least as often as the opening line |
| `MarkdownBlocks.EndOfCode` | crates/knowledge-base/src/chunking/strategies.rs:337-348 | the scan for the closing fence |
| `MarkdownBlocks.EndOfTable` | crates/knowledge-base/src/chunking/strategies.rs:352-358 | the scan over table lines |
| `MarkdownBlocks.EndOfPara` | crates/knowledge-base/src/chunking/strategies.rs:359-374 | the scan over prose lines |
| `MarkdownGroups.GroupingIsSound` | crates/knowledge-base/src/chunking/strategies.rs:389-444 | flattening the groups gives the blocks in order; each group fits, is one block, or is a heading and one block; no cut between a heading and the block behind it |
| `MarkdownPacking.GroupedIsPacking` | crates/knowledge-base/src/chunking/strategies.rs:389-444 | each group is whole sections that fit and with the next one would not, or blocks of one section that is too long, cut where the next block does not fit, a heading waiting for its body |
| `MarkdownPacking.PackingIsUnique` | crates/knowledge-base/src/chunking/strategies.rs:389-444 | no other groups have this property |
| `MarkdownGroups.EmptyBlockIsOvertaken` | crates/knowledge-base/src/chunking/strategies.rs:424-444 | with an empty block it would not: the order changes |
| `MarkdownGroups.SectionsCutAtHeadings` | crates/knowledge-base/src/chunking/strategies.rs:413-422 | sections are the blocks cut before each heading and nowhere else |
| `MarkdownGroups.ShortSectionsStayWhole` | crates/knowledge-base/src/chunking/strategies.rs:424-444 | a section within the bound is never cut |
| `MarkdownGroups.LenConcat` | crates/knowledge-base/src/chunking/strategies.rs:380-386 | lengths of joined blocks add up, plus the newline between |
| `MarkdownChunker.TextLength` | crates/knowledge-base/src/chunking/strategies.rs:380-386 | the length reckoned with is that of the chunk's text |
| `MarkdownGroups.GreedyGroup` | crates/knowledge-base/src/chunking/strategies.rs:389-409 | the loop with its running length does what `Greedy` says |
| `MarkdownGroups.SplitSections` | crates/knowledge-base/src/chunking/strategies.rs:413-422 | the loop over the last section does what `Sections` says |
| `MarkdownGroups.GroupBlocks` | crates/knowledge-base/src/chunking/strategies.rs:412-444 | the loop with its running length yields `Grouped`, hence the above |
| `MarkdownChunker.BlockHasInk` | crates/knowledge-base/src/chunking/strategies.rs:329-377 | no parsed block is blank |
| `MarkdownChunker.NoGroupIsBlank` | crates/knowledge-base/src/chunking/strategies.rs:453-457 | the check for blank groups never fires, so numbers have no gaps |
| `MarkdownChunker.ChunkMarkdown` | crates/knowledge-base/src/chunking/strategies.rs:447-471 | one chunk per group of the parsed blocks, numbered from zero: the texts of its blocks, one newline between each two, and its id |
| `MarkdownChunker.ChunksHoldTheBlocks` | crates/knowledge-base/src/chunking/strategies.rs:447-471 | the chunks of a document hold the blocks of its one parse, in order, none lost and none twice, packed while they fit (`IsPacking`) and well cut; a text longer than the limit is one block, or a heading and one block |
| `KnowledgeIndex.OwnIdsDiffer` | crates/knowledge-base/src/chunking/strategies.rs:12-18 | an id that a chunk of one document can have is no chunk id of another document and no title id |
| `KnowledgeIndex.PostingIsOwned` | crates/knowledge-base/src/backends/memory.rs:626-636 | every posting is for a chunk or the title of a remembered document |
| `KnowledgeIndex.DocumentsAreIndexed` | crates/knowledge-base/src/engine/ingestion.rs:147-170 | in every canonical state: for each chunk and word, the chunk is listed under the word as often as the word occurs in it, and the title likewise, if the document is in the text index; if not, nothing of it is listed |
| `KnowledgeSteps.ForgetKeepsCanonical` | crates/knowledge-base/src/backends/memory.rs:140-180 | deletion takes out one document, by chunk id and then by document, and leaves all others exactly as they were, in every index |
| `KnowledgeSteps.AddKeepsCanonical` | crates/knowledge-base/src/engine/ingestion.rs:123-163 | storing and indexing an unknown document adds exactly its chunks, vectors and postings |
| `KnowledgeSteps.EverythingBelongs` | crates/knowledge-base/src/backends/memory.rs:125-180 | every chunk, vector and posting belongs to a stored document; vector keys are chunk ids |
| `KnowledgeSteps.NoTrace` | crates/knowledge-base/src/engine/ingestion.rs:211-271 | a document that was deleted has no chunk, vector or posting left, its title included |
| `KnowledgeSteps.HistoryDoesNotMatter` | crates/knowledge-base/src/engine/ingestion.rs:55-187 | two histories that end with the same documents last ingested the same way leave the same documents, chunks and vectors and the same bag of postings |
| `Ingestion.OutcomeIsWellStored` | crates/knowledge-base/src/engine/ingestion.rs:94-125 | whatever is ingested, its chunk ids are distinct and its own |
| `Ingestion.OnlyRealChunksAreIndexed` | crates/knowledge-base/src/engine/ingestion.rs:82-166 | in every mode, field by field: the document, its chunks as the chunker cut them or the one stand-in, the embeddings the service gave, and that a configured index gets them iff the mode names it |
| `Ingestion.OutcomeIffEmbedded` | crates/knowledge-base/src/engine/ingestion.rs:108-121 | an ingestion fails iff the mode wants embeddings, there are chunks, and the service gives none |
| `Ingestion.OwnedAreLatest` | crates/knowledge-base/src/engine/ingestion.rs:211-271 | the chunks found for a document are exactly those it was last stored with |
| `Ingestion.FailedEmbeddingLosesTheDocument` | crates/knowledge-base/src/engine/ingestion.rs:71-125 | after an ingestion the document is missing iff embeddings were needed, there were chunks, and the embedding failed: the old version is deleted first |
| `Ingestion.KnowledgeBase.constructor` | crates/knowledge-base/src/backends/memory.rs:32-41 | an empty knowledge base |
| `Ingestion.KnowledgeBase.StoreDocument` | crates/knowledge-base/src/backends/memory.rs:125-134 | the document and, in order, its chunks |
| `Ingestion.KnowledgeBase.UpsertVectors` | crates/knowledge-base/src/backends/memory.rs:291-297 | the vectors, keyed by chunk id |
| `Ingestion.KnowledgeBase.IndexText` | crates/knowledge-base/src/backends/memory.rs:626-636 | every word gains its postings, in order, at the end |
| `Ingestion.KnowledgeBase.RetainPostings` | crates/knowledge-base/src/backends/memory.rs:638-645 | the two loops keep of each word the postings asked for, in order, and no word without postings |
| `Ingestion.KnowledgeBase.RemoveText` | crates/knowledge-base/src/backends/memory.rs:638-646 | of each word exactly the postings of other ids are left, in order |
| `Ingestion.RetainList` | crates/knowledge-base/src/backends/memory.rs:641-643 | the loop keeps what is asked for, in order |
| `Ingestion.PostingsFixIndex` | crates/knowledge-base/src/backends/memory.rs:638-646 | an index without empty words is fixed by the postings of its words |
| `Ingestion.KnowledgeBase.RemoveVectors` | crates/knowledge-base/src/backends/memory.rs:299-305 | the loop removes these vectors and no others |
| `Ingestion.KnowledgeBase.ChunkIdsOf` | crates/knowledge-base/src/backends/memory.rs:143-152 | the loop finds the ids of exactly the chunks of a document |
| `Ingestion.KnowledgeBase.DeleteStored` | crates/knowledge-base/src/backends/memory.rs:140-180 | the loops leave no chunk and no posting of the document and all others as they were, and the vectors of its chunks go |
| `Ingestion.KnowledgeBase.DeleteDocument` | crates/knowledge-base/src/engine/ingestion.rs:211-271 | not found for unknown documents; else the exact number of chunks is reported and the state is that of the other documents |
| `Ingestion.KnowledgeBase.IngestWithMode` | crates/knowledge-base/src/engine/ingestion.rs:55-187 | in any storage mode and whatever the embedding service answers: the resulting state is exactly that of the documents remembered, the new one replacing the old; each of them that is in the text index is found by every word of its chunks and its title, as often as the word occurs there (`IsIndexed`); it fails iff embeddings are wanted and there are none |
| `Ingestion.KnowledgeBase.AddDocument` | crates/knowledge-base/src/engine/ingestion.rs:82-187 | the part behind the deletion of the old version |
| `Ingestion.KnowledgeBase.IngestBatch` | crates/knowledge-base/src/engine/ingestion.rs:192-198 | documents are ingested one after the other, failures not stopping the others |
| `SseParser.SplitLosesNothing` | webui/src/api/stream.ts:53-54 | joining the pieces gives the text back and no piece has a newline |
| `SseParser.SplitGoesOn` | webui/src/api/stream.ts:53-54 | splitting can stop anywhere and go on with the last piece |
| `SseParser.NameIsTheLastSet` | webui/src/api/stream.ts:57-76 | the event name is that of the last event line unless a blank line came after it, else what was pending |
| `SseParser.EventLine` | webui/src/api/stream.ts:58-59 | a line `event: ` names the event by what follows, trimmed, and yields nothing |
| `SseParser.DataLine` | webui/src/api/stream.ts:60-68 | a line `data: ` yields what follows, decoded, under the name in force, or nothing if it does not decode |
| `SseParser.OtherLine` | webui/src/api/stream.ts:69-73 | any other line ends the event if blank and is ignored else |
| `SseParser.ParseGoesOn` | webui/src/api/stream.ts:44-79 | two calls, the rest and the pending name handed on, do what one call on both chunks does |
| `SseParser.ChunkingDoesNotMatter` | webui/src/api/stream.ts:36-79 | for every splitting of a stream, events and final state are those of one call on all of it |
| `SseParser.RemainingHasNoNewline` | webui/src/api/stream.ts:53-54 | what remains has no newline |
| `SseParser.ParseSseLines` | webui/src/api/stream.ts:44-79 | the loop yields one event per decodable data line, under the name in force |
| `ArtifactLines.SplitLosesNothing` | crates/peco-core/src/artifacts.rs:64-64 | lines keep their newlines: joined they are the text, and only the last may lack one |
| `ArtifactLines.StripDistributes` | crates/peco-core/src/artifacts.rs:55-89 | stripping distributes over concatenation at a line boundary |
| `ArtifactLines.PayloadIff` | crates/peco-core/src/artifacts.rs:65-76 | a declaration on its characters: white space, the marker, white space, then a brace or nothing |
| `ArtifactLines.StripOneLine` | crates/peco-core/src/artifacts.rs:64-86 | one line: kept as it is iff it is no declaration; else dropped with what decodes of it |
| `ArtifactLines.StripIsIdempotent` | crates/peco-core/src/artifacts.rs:55-89 | stripped text has nothing left to strip |
| `ArtifactLines.FastPathAgrees` | crates/peco-core/src/artifacts.rs:57-59 | texts without the marker are returned as the line-by-line path would |
| `ArtifactLines.StripUndoesWith` | crates/peco-core/src/artifacts.rs:144-151 | stripping what was injected gives the clean text, and the injected declarations before those of the text |
| `ArtifactLines.StripWithStrip` | crates/peco-core/src/artifacts.rs:144-151 | stripped declarations can be injected and stripped again |
| `ArtifactLines.StripArtifactLines` | crates/peco-core/src/artifacts.rs:55-89 | the loop keeps what is no declaration and collects what decodes |
| `ArtifactLines.RenderArtifactLines` | crates/peco-core/src/artifacts.rs:129-138 | one line per declaration |
| `ArtifactLines.RenderedLines` | crates/peco-core/src/artifacts.rs:129-138 | the lines rendered: marker, one blank, encoding, one per declaration, in order |
| `ArtifactLines.WithArtifactLines` | crates/peco-core/src/artifacts.rs:144-151 | the lines are put in front |
| `ArtifactLines.StrippedPartsAreClean` | crates/peco-core/src/artifacts.rs:95-123 | text parts are clean and not empty, other parts are all there in order |
| `ArtifactLines.PartsStripDistributes` | crates/peco-core/src/artifacts.rs:95-123 | parts are stripped one by one and the declarations of all of them are kept in order |
| `ArtifactLines.OnePartStripped` | crates/peco-core/src/artifacts.rs:101-117 | one part: a text is stripped as any text and dropped if empty then, anything else stays |
| `ArtifactLines.ContentStripIsIdempotent` | crates/peco-core/src/artifacts.rs:95-123 | stripping content once is enough |
| `ArtifactLines.StripParts` | crates/peco-core/src/artifacts.rs:101-121 | the loop over parts |
| `ArtifactLines.StripContent` | crates/peco-core/src/artifacts.rs:95-123 | text, or parts with the empty text standing for no parts |
| `ArtifactStore.NextKeepsInv` | webui/src/stores/pecoArtifactStore.ts:81-228 | after any event the flags say exactly whether a request of the current generation is in flight, of which there is at most one of a kind |
| `ArtifactStore.LateAnswerChangesNothing` | webui/src/stores/pecoArtifactStore.ts:115-137 | an answer from an earlier generation changes neither the store nor what may be requested |
| `ArtifactStore.ResetOutdatesRequests` | webui/src/stores/pecoArtifactStore.ts:221-228 | after a reset every request in flight is of an earlier generation |
| `ArtifactStore.NextGrows` | webui/src/stores/pecoArtifactStore.ts:103-219 | within a generation the cursor does not go back and no known id is forgotten |
| `ArtifactStore.RunHolds` | webui/src/stores/pecoArtifactStore.ts:81-228 | both over any run with late or failed answers |
| `ArtifactStore.LoadsOnce` | webui/src/stores/pecoArtifactStore.ts:140-144 | in any run, once a first page has come in, loading asks for nothing until the user changes |
| `ArtifactStore.FailureKeepsLists` | webui/src/stores/pecoArtifactStore.ts:128-137 | a failed request says so and leaves lists, total and cursor alone |
| `ArtifactStore.HeadAddsIds` | webui/src/stores/pecoArtifactStore.ts:103-112 | after a head page the known ids are the old ones and those of the page |
| `ArtifactStore.MoreAddsIds` | webui/src/stores/pecoArtifactStore.ts:159-173 | after a further page likewise |
| `ArtifactStore.IngestAddsIds` | webui/src/stores/pecoArtifactStore.ts:185-212 | after announced artifacts likewise |
| `ArtifactStore.IngestCountsTheNew` | webui/src/stores/pecoArtifactStore.ts:185-212 | the total grows by as many as become known |
| `ArtifactStore.FirstVersionWins` | webui/src/stores/pecoArtifactStore.ts:195-201 | of items with one id in a batch the first is kept |
| `ArtifactStore.HeadItemsWin` | webui/src/stores/pecoArtifactStore.ts:103-112 | after a head page its items are shown, and everything else as before |
| `ArtifactEffects.HeadPageLands` | webui/src/stores/pecoArtifactStore.ts:103-137 | a head page stands in front of the older pages without its items, its items leave the stream's list, the total is the server's, the cursor does not go back |
| `ArtifactEffects.FurtherPageLands` | webui/src/stores/pecoArtifactStore.ts:159-173 | a further page adds, at the end and in order, what is not known yet; total and cursor do not go back |
| `ArtifactEffects.AnnouncedInFront` | webui/src/stores/pecoArtifactStore.ts:185-212 | announced items go in front, newest first, their older versions leave the list; pages and cursor stay |
| `ArtifactEffects.PrefixIsNewestFirst` | webui/src/stores/pecoArtifactStore.ts:192-201 | a batch is listed in reverse; an id that comes twice has the place of its last occurrence |
| `ArtifactEffects.ShownInOrder` | webui/src/stores/pecoArtifactStore.ts:17-23 | the list shown: the stream's items, then those only in the pages, in order |
| `ArtifactEffects.HeadIsRequested` | webui/src/stores/pecoArtifactStore.ts:115-148 | when a head request is sent, and what that changes |
| `ArtifactEffects.MoreIsRequested` | webui/src/stores/pecoArtifactStore.ts:150-156 | when a further page is requested, and what that changes |
| `ArtifactEffects.ResetForgets` | webui/src/stores/pecoArtifactStore.ts:221-228 | a reset leaves nothing of the earlier user |
| `ArtifactEffects.UnavailableInBoth` | webui/src/stores/pecoArtifactStore.ts:215-219 | an unavailable artifact is marked in both lists and nothing else changes |
| `ArtifactStore.ShownOnce` | webui/src/stores/pecoArtifactStore.ts:17-23 | the merged list has every known id exactly once |
| `ArtifactStore.NextKeepsUnique` | webui/src/stores/pecoArtifactStore.ts:17-228 | with pages that name no id twice neither list ever does |
| `ArtifactStore.RunKeepsUnique` | webui/src/stores/pecoArtifactStore.ts:17-228 | the same for the merged list over any run |
| `ArtifactStore.EveryRun` | webui/src/stores/pecoArtifactStore.ts:62-228 | from the empty store, over any run: the flags are right, and with duplicate-free pages the merged list has every known id exactly once |
| `PecoArtifactStore.ArtifactStoreObject.LoadHead` | webui/src/stores/pecoArtifactStore.ts:115-137 | a head request is sent iff none is in flight |
| `PecoArtifactStore.ArtifactStoreObject.HeadArrives` | webui/src/stores/pecoArtifactStore.ts:115-137 | the landing of a head answer; a late one changes nothing |
| `PecoArtifactStore.ArtifactStoreObject.LoadMore` | webui/src/stores/pecoArtifactStore.ts:150-183 | a page is asked for from the cursor, unless one is under way or there is no more |
| `PecoArtifactStore.ArtifactStoreObject.MoreArrives` | webui/src/stores/pecoArtifactStore.ts:150-183 | the landing of a further page |
| `PecoArtifactStore.ArtifactStoreObject.Ingest` | webui/src/stores/pecoArtifactStore.ts:185-212 | the new items in front, the old ones of the same ids gone, the total raised by the newly known |
| `PecoArtifactStore.Collect` | webui/src/stores/pecoArtifactStore.ts:192-201 | the loop over the batch in reverse yields each id once, and which are new |
| `PecoArtifactStore.ArtifactStoreObject.Reset` | webui/src/stores/pecoArtifactStore.ts:221-228 | empty lists, a new generation, and only outdated requests in flight |
| `BlockAssembly.BlocksAreLastEnds` | crates/model-provider/src/response.rs:501-541 | a block is in the result iff it ended, as it ended last; it is open iff its last start has no end behind it |
| `BlockAssembly.StatusIsLastAbnormal` | crates/model-provider/src/response.rs:501-541 | status, error and reason are those of the last finish of the right kind |
| `BlockAssembly.CompletedMeansNormalFinish` | crates/model-provider/src/response.rs:560-600 | where the status is still completed, a finish that arrived was `Stop` or `ToolCalls` |
| `BlockAssembly.UsageIsLast` | crates/model-provider/src/response.rs:514-516 | the usage is the one reported last |
| `BlockAssembly.FinalStatusIsStreamStatus` | crates/model-provider/src/response.rs:560-605 | for every stream: the final status is that of the last finish other than `Stop` and `ToolCalls`; without one, incomplete iff no finish came and a block is open, else completed |
| `BlockAssembly.ErrorAgreesIff` | crates/model-provider/src/response.rs:517-538 | error and failed status agree iff the last abnormal finish is not a `MaxTokens` behind a failure |
| `BlockAssembly.OneFinishAgrees` | crates/model-provider/src/response.rs:517-538 | with at most one finish they always agree, and the error carries its reason |
| `BlockAssembly.ErrorOutlivesFailure` | crates/model-provider/src/response.rs:517-538 | an instance of the disagreement: a failure, then a `MaxTokens` |
| `BlockAssembly.DeltasDoNotMatter` | crates/model-provider/src/response.rs:506-509 | deltas change nothing |
| `BlockAssembly.EndsCommute` | crates/model-provider/src/response.rs:510-513 | blocks may end in any order |
| `BlockAssembly.OrderIsUnique` | crates/model-provider/src/response.rs:599-599 | there is one way to list the blocks by ascending index |
| `BlockAssembly.BlockAssembler.Push` | crates/model-provider/src/response.rs:501-541 | after a chunk the fields stand for the stream with that chunk appended, in the sense of the four rows on `Last` |
| `BlockAssembly.BlockAssembler.PushAll` | crates/model-provider/src/response.rs:501-541 | the same for a whole stream |
| `BlockAssembly.BlockAssembler.FinishWithReason` | crates/model-provider/src/response.rs:560-605 | of the stream consumed: each block that ended, as it ended last, by ascending index; its status as above; its last usage, finish and failure |
| `SessionGrouping.RunsPartitionItems` | crates/peco-server/src/session_dto.rs:110-250 | the items, without those ignored, are cut into consecutive runs, one per message; two assistant messages follow each other only where the second starts with a text and the first has one |
| `SessionGrouping.GroupingConserves` | crates/peco-server/src/session_dto.rs:110-250 | what users wrote with its pictures and attachments, system texts, calls, assistant texts, tool outputs and reasoning of the messages are those of the items, in order |
| `SessionGrouping.MessageFields` | crates/peco-server/src/session_dto.rs:110-250 | the other fields of a message: the time of its first item, an interruption where its text or output carries one, and nothing its kind does not have |
| `SessionGrouping.BuilderIsNeverEmpty` | crates/peco-server/src/session_dto.rs:85-103 | no message under construction is ever dropped as empty |
| `SessionGrouping.GroupInputItems` | crates/peco-server/src/session_dto.rs:110-250 | one message per run, with the time of its first item |
| `SessionGrouping.TakeItem` | crates/peco-server/src/session_dto.rs:125-245 | one turn of the loop, for each kind of item |
| `SessionGrouping.Flush` | crates/peco-server/src/session_dto.rs:115-121 | flushing closes the last run |
| `Fusion.ScoreIgnoresOrder` | crates/knowledge-base/src/engine/fusion.rs:13-24 | the score of a document does not depend on the order of the lists |
| `Fusion.RankIsWorth` | crates/knowledge-base/src/engine/fusion.rs:18-24 | one more rank adds weight / (k + rank + 1) to its document and nothing to the others |
| `Fusion.FusionIgnoresOrder` | crates/knowledge-base/src/engine/fusion.rs:13-33 | nor do the documents kept and their scores |
| `Fusion.OneListKeepsWorthy` | crates/knowledge-base/src/engine/fusion.rs:13-33 | one list without repetitions, for every k and weight: exactly the ranks worth the minimum are kept, with that worth |
| `Fusion.OneListKeepsPrefix` | crates/knowledge-base/src/engine/fusion.rs:13-33 | with positive weight and k above -1: exactly the ranks r with weight >= min_score * (k + r + 1), in order |
| `Fusion.AlwaysPrefixIff` | crates/knowledge-base/src/engine/fusion.rs:13-33 | fusing one list gives a prefix of it for every list and threshold iff k is above -1 |
| `Fusion.RrfFuse` | crates/knowledge-base/src/engine/fusion.rs:13-33 | each document of any list whose summed score reaches the minimum, once, with that score, best first; and no other |
| `BlobCache.ArtifactBlobCache.constructor` | webui/src/api/artifactBlob.ts:82-90 | an empty cache satisfies the invariant |
| `BlobCache.ArtifactBlobCache.RevokeUrls` | webui/src/api/artifactBlob.ts:388-390 | the loop revokes the URL of every entry once |
| `BlobCache.ArtifactBlobCache.ResponseArrives` | webui/src/api/artifactBlob.ts:231-231 | the browser makes a URL for a response |
| `MarkdownGroups.SumLengths` | crates/knowledge-base/src/chunking/strategies.rs:380-386 | the sum over the blocks is the length of the joined text |
| `PecoArtifactStore.ArtifactStoreObject.constructor` | webui/src/stores/pecoArtifactStore.ts:62-89 | the empty store satisfies the invariant |
| `PecoArtifactStore.ArtifactStoreObject.Load` | webui/src/stores/pecoArtifactStore.ts:140-144 | a head request unless a page was loaded before or one is in flight |
| `PecoArtifactStore.ArtifactStoreObject.RefreshHead` | webui/src/stores/pecoArtifactStore.ts:146-148 | a head request unless one is in flight |
| `PecoArtifactStore.ArtifactStoreObject.SetFilter` | webui/src/stores/pecoArtifactStore.ts:213-213 | only the filter changes |
| `PecoArtifactStore.ArtifactStoreObject.MarkUnavailable` | webui/src/stores/pecoArtifactStore.ts:215-219 | only availability changes, in both lists |
| `PecoArtifactStore.PutInto` | webui/src/stores/pecoArtifactStore.ts:197-199 | replaces the item of the same id in place, or appends |
| `BlockAssembly.BlockAssembler.constructor` | crates/model-provider/src/response.rs:485-494 | the fields stand for the empty stream |
| `BlockAssembly.BlockAssembler.Sorted` | crates/model-provider/src/response.rs:599-599 | the blocks by ascending index |
| `Fusion.Entries` | crates/knowledge-base/src/engine/fusion.rs:26-26 | the entries of the map, each once |
| `Fusion.SortKeeps` | crates/knowledge-base/src/engine/fusion.rs:27-27 | the sort is a permutation in descending order |
| `Fusion.RetainedHas` | crates/knowledge-base/src/engine/fusion.rs:30-30 | exactly the entries that reach the minimum are kept |

## Left out

- Cache entries of the blob cache are values; a serial number stands for object identity. Map insertion order,
  which breaks ties between equal times, is that serial number; loops over the cache visit it in any order.
- MIME types, progress callbacks, abort signals of single waiters, retries with their delays and the one-time
  warnings of the blob cache: they do not touch cache, queue or counts. A request and its retry are one request.
- The promotion of a queued prefetch when a user asks for the same artifact: the code leaves it where it is in
  the queue, and so does the model.
- Bytes held by one entry never change while it is ready, so re-measuring is not modelled.
- The similarity test is an abstract relation, asked about pairs in index order as the code does; `cosine_similarity` and f32 rounding
  are not modelled.
- The final sorts of the clustering are not executed; they are proved to be the identity.
- Node labels, node deletion, edge weights and subgraph listing of the graph stores. The breadth-first search of
  `backends/memory.rs` is the same code as that of `backends/memory_graph.rs` and is not modelled twice.
- Log file names with suffix `.0` or other odd suffixes, and other processes changing the directory. A writer
  whose first open fails does not exist.
- Log append errors stop after a prefix of the event; flushing and locking are not modelled.
- u32 wrap-around of chunk sequence numbers: sequence numbers are unbounded.
- Documents enter the Markdown chunker as lines; cutting text at `\n` or `\r\n` is the library's.
- The fixed-size and sentence chunkers: shorter loops of the same kind.
- Knowledge-graph edges made during ingestion, document metadata and page numbers; search over the indexes.
- Sorting the chunks of a document by sequence number before deletion: only their ids and number are used.
- Store and index errors during ingestion, which the in-memory backend never returns; locks between two
  operations are not modelled, so ingestions and deletions do not interleave.
- What `SseParser` decodes is a parameter: `raw.data ?? raw` and malformed JSON are inside it. The mapping of
  events to typed events is a table.
- Fields of an artifact other than id, title and availability, and error texts beyond their presence.
- `releaseAll` being called from the artifact store's reset: the two stores are modelled apart.
- Server-tool blocks in model responses, all but two counters of the usage, and the text of error messages.
- `display_text`, image and attachment extraction for user messages: their results are part of the item.
- Fusion.RrfFuse: requires that no k + rank + 1 is zero, where the reals have no quotient; f32 infinities are not
  modelled. The order of documents with equal scores, which the hash map leaves open, is left open. Sorting is a
  stable insertion sort.
- Database, vector store, HTTP, command-line, routing and page code: input and output, or libraries.
